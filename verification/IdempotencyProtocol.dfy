/** The idempotency middleware as a concurrent protocol. Any number of requests
    interleave; each samples the clock, later takes the lock for its first
    critical section, runs its handler without the lock, and takes the lock
    again for the second. A record is named by the request that created it, so
    that the model sees which object a pointer leads to. */
module IdempotencyProtocol {
  import opened IdempotencyStore

  type RequestId = nat

  datatype Phase =
    | Waiting                                                // clock sampled, lock not yet taken
    | Running                                                // claimed the key, handler at work
    | Finished(response: Response)                           // second critical section done
    | Refused(decision: Decision)                            // answered with a conflict
    | Replaying(source: RequestId, headerType: string)       // header set under the lock, body still to be sent
    | Replayed(source: RequestId, headerType: string, sent: Response)

  datatype Request = Request(path: string, key: string, bodyHash: string, now: int, phase: Phase) {
    function Id(): string {
      RecordId(path, key)
    }
  }

  datatype State = State(
    clock: int,
    records: map<string, RequestId>,
    cells: map<RequestId, Cell>,
    requests: map<RequestId, Request>)

  datatype Event =
    | Tick(elapsed: nat)
    | Arrive(r: RequestId, path: string, key: string, bodyHash: string)
    | Begin(r: RequestId)
    | Complete(r: RequestId, response: Response)
    | Send(r: RequestId)

  const INIT: State := State(0, map[], map[], map[])

  predicate InPhase(s: State, r: RequestId, p: Phase -> bool) {
    r in s.requests && p(s.requests[r].phase)
  }

  predicate Enabled(s: State, e: Event) {
    match e
    case Tick(_) => true
    case Arrive(r, _, key, _) => r !in s.requests && IsUuid(key)
    case Begin(r) => r in s.requests && s.requests[r].phase.Waiting?
    case Complete(r, _) => r in s.requests && s.requests[r].phase.Running?
    case Send(r) => r in s.requests && s.requests[r].phase.Replaying? && s.requests[r].phase.source in s.cells
  }

  function Moved(s: State, r: RequestId, phase: Phase): map<RequestId, Request>
    requires r in s.requests
  {
    s.requests[r := s.requests[r].(phase := phase)]
  }

  function Live(s: State, now: int, ttl: int): map<string, RequestId> {
    map id | id in s.records && s.records[id] in s.cells
             && !IsExpired(s.cells[s.records[id]].createdAt, now, ttl) :: s.records[id]
  }

  function AfterBegin(s: State, ttl: int, r: RequestId): State
    requires r in s.requests
  {
    var q := s.requests[r];
    var live := Live(s, q.now, ttl);
    if q.Id() !in live then
      s.(records := live[q.Id() := r], cells := s.cells[r := Claimed(q.bodyHash, q.now)],
         requests := Moved(s, r, Running))
    else
      var found := s.cells[live[q.Id()]];
      s.(records := live,
         requests := Moved(s, r,
           if found.bodyHash != q.bodyHash then Refused(PayloadConflict)
           else if found.inFlight then Refused(InProcess)
           else Replaying(live[q.Id()], found.response.contentType)))
  }

  function AfterComplete(s: State, r: RequestId, response: Response): State
    requires r in s.requests
  {
    var id := s.requests[r].Id();
    var done := s.(requests := Moved(s, r, Finished(response)));
    if id !in s.records || s.records[id] !in s.cells then done
    else if IsKept(response.status) then
      var target := s.records[id];
      done.(cells := s.cells[target := s.cells[target].(inFlight := false, response := response)])
    else done.(records := s.records - {id})
  }

  function Next(s: State, ttl: int, e: Event): State
    requires Enabled(s, e)
  {
    match e
    case Tick(elapsed) => s.(clock := s.clock + elapsed)
    case Arrive(r, path, key, bodyHash) =>
      s.(requests := s.requests[r := Request(path, key, bodyHash, s.clock, Waiting)])
    case Begin(r) => AfterBegin(s, ttl, r)
    case Complete(r, response) => AfterComplete(s, r, response)
    case Send(r) =>
      var p := s.requests[r].phase;
      s.(requests := Moved(s, r, Replayed(p.source, p.headerType, s.cells[p.source].response)))
  }

  datatype Outcome = Stuck | At(state: State)

  /** The state a run of events leads to from the empty table. */
  function After(ttl: int, es: seq<Event>): Outcome {
    if es == [] then At(INIT)
    else
      match After(ttl, es[..|es| - 1])
      case Stuck => Stuck
      case At(s) =>
        var e := es[|es| - 1];
        if Enabled(s, e) then At(Next(s, ttl, e)) else Stuck
  }

  // ----- What every interleaving keeps, with no assumption on timing -----

  /** The record under `id` was created for `id`, and if it is in flight its
      creator's handler is still at work. */
  ghost predicate RecordFiled(s: State, id: string)
    requires id in s.records
  {
    var r := s.records[id];
    && r in s.cells && r in s.requests
    && s.requests[r].Id() == id
    && (s.cells[r].inFlight ==> s.requests[r].phase.Running?)
  }

  /** A record describes the request that created it, and a completed one holds
      a status worth replaying. */
  ghost predicate CellSound(s: State, r: RequestId)
    requires r in s.cells
  {
    && r in s.requests
    && s.cells[r].bodyHash == s.requests[r].bodyHash
    && s.cells[r].createdAt == s.requests[r].now
    && (s.requests[r].phase.Running? || s.requests[r].phase.Finished?)
    && (!s.cells[r].inFlight ==> IsKept(s.cells[r].response.status))
  }

  /** `q` is the execution a replay of `r` answers from: the same call, begun
      at most `ttl` before `r` sampled the clock. */
  ghost predicate SameCallWithin(q: Request, r: Request, ttl: int) {
    && q.path == r.path && q.key == r.key && q.bodyHash == r.bodyHash
    && r.now - q.now <= ttl
  }

  predicate IsReplay(p: Phase) {
    p.Replaying? || p.Replayed?
  }

  ghost predicate RequestSound(s: State, ttl: int, r: RequestId)
    requires r in s.requests
  {
    var q := s.requests[r];
    && IsUuid(q.key) && q.now <= s.clock
    && (IsReplay(q.phase) ==>
          && q.phase.source in s.cells && q.phase.source in s.requests
          && !s.cells[q.phase.source].inFlight
          && SameCallWithin(s.requests[q.phase.source], q, ttl))
    && (q.phase.Replayed? ==> IsKept(q.phase.sent.status))
  }

  ghost predicate Sound(s: State, ttl: int) {
    && (forall id :: id in s.records ==> RecordFiled(s, id))
    && (forall r :: r in s.cells ==> CellSound(s, r))
    && (forall r :: r in s.requests ==> RequestSound(s, ttl, r))
  }

  lemma BeginKeepsRecords(s: State, ttl: int, r: RequestId)
    requires Sound(s, ttl) && Enabled(s, Begin(r))
    ensures var t := AfterBegin(s, ttl, r);
            && (forall id :: id in t.records ==> RecordFiled(t, id))
            && (forall c :: c in t.cells ==> CellSound(t, c))
  {
    var t := AfterBegin(s, ttl, r);
    assert r !in s.cells by { assert r in s.cells ==> CellSound(s, r); }
    forall id | id in t.records ensures RecordFiled(t, id) {
      assert t.records[id] != r ==> id in s.records && RecordFiled(s, id);
    }
    forall c | c in t.cells ensures CellSound(t, c) {
      assert c != r ==> CellSound(s, c);
    }
  }

  /** A replay found under the id was claimed by the very same call. */
  lemma BeginFindsSameCall(s: State, ttl: int, r: RequestId)
    requires Sound(s, ttl) && Enabled(s, Begin(r))
    ensures var q := AfterBegin(s, ttl, r).requests[r];
            q.phase.Replaying? ==>
              && q.phase.source in s.cells && !s.cells[q.phase.source].inFlight
              && q.phase.source in s.requests && SameCallWithin(s.requests[q.phase.source], q, ttl)
  {
    var q := s.requests[r];
    var live := Live(s, q.now, ttl);
    assert RequestSound(s, ttl, r);
    if q.Id() in live {
      var source := live[q.Id()];
      assert RecordFiled(s, q.Id()) && CellSound(s, source) && RequestSound(s, ttl, source);
      RecordIdInjective(s.requests[source].path, s.requests[source].key, q.path, q.key);
    }
  }

  lemma BeginIsFirst(s: State, ttl: int, r: RequestId)
    requires Sound(s, ttl) && Enabled(s, Begin(r))
    ensures r !in s.cells
  {
    assert r in s.cells ==> CellSound(s, r);
  }

  lemma SoundRequest(s: State, ttl: int, r: RequestId)
    requires Sound(s, ttl) && r in s.requests
    ensures RequestSound(s, ttl, r)
  {
    hide RequestSound, RecordFiled, CellSound;
  }

  lemma BeginKeepsOwnRequest(s: State, ttl: int, r: RequestId)
    requires Sound(s, ttl) && Enabled(s, Begin(r))
    ensures RequestSound(AfterBegin(s, ttl, r), ttl, r)
  {
    hide Sound, Live;
    BeginIsFirst(s, ttl, r);
    BeginFindsSameCall(s, ttl, r);
    SoundRequest(s, ttl, r);
  }

  lemma BeginKeepsOtherRequest(s: State, ttl: int, r: RequestId, c: RequestId)
    requires Sound(s, ttl) && Enabled(s, Begin(r)) && c in s.requests && c != r
    ensures RequestSound(AfterBegin(s, ttl, r), ttl, c)
  {
    hide Sound, Live;
    BeginIsFirst(s, ttl, r);
    SoundRequest(s, ttl, c);
  }

  lemma BeginKeepsRequests(s: State, ttl: int, r: RequestId)
    requires Sound(s, ttl) && Enabled(s, Begin(r))
    ensures var t := AfterBegin(s, ttl, r); forall c :: c in t.requests ==> RequestSound(t, ttl, c)
  {
    hide RequestSound, Sound, Live;
    var t := AfterBegin(s, ttl, r);
    forall c | c in t.requests ensures RequestSound(t, ttl, c) {
      if c == r { BeginKeepsOwnRequest(s, ttl, r); } else { BeginKeepsOtherRequest(s, ttl, r, c); }
    }
  }

  lemma CompleteKeepsRecords(s: State, ttl: int, r: RequestId, response: Response)
    requires Sound(s, ttl) && Enabled(s, Complete(r, response))
    ensures var t := AfterComplete(s, r, response); forall id :: id in t.records ==> RecordFiled(t, id)
  {
    hide RequestSound, CellSound;
    var t := AfterComplete(s, r, response);
    forall id | id in t.records ensures RecordFiled(t, id) {
      assert RecordFiled(s, id);
      assert s.records[id] == r ==> id == s.requests[r].Id();
    }
  }

  lemma CompleteKeepsCells(s: State, ttl: int, r: RequestId, response: Response)
    requires Sound(s, ttl) && Enabled(s, Complete(r, response))
    ensures var t := AfterComplete(s, r, response); forall c :: c in t.cells ==> CellSound(t, c)
  {
    hide RequestSound, RecordFiled;
    var t := AfterComplete(s, r, response);
    forall c | c in t.cells ensures CellSound(t, c) {
      assert CellSound(s, c);
    }
  }

  /** A completion only ends flights; it starts none. */
  lemma CompleteOnlyLands(s: State, r: RequestId, response: Response)
    requires r in s.requests
    ensures var t := AfterComplete(s, r, response);
            && t.cells.Keys == s.cells.Keys && t.requests.Keys == s.requests.Keys && t.clock == s.clock
            && (forall c :: c in s.cells && !s.cells[c].inFlight ==> !t.cells[c].inFlight)
            && (forall q :: q in s.requests ==>
                  t.requests[q] == if q == r then s.requests[r].(phase := Finished(response)) else s.requests[q])
  {
  }

  lemma CompleteKeepsRequests(s: State, ttl: int, r: RequestId, response: Response)
    requires Sound(s, ttl) && Enabled(s, Complete(r, response))
    ensures var t := AfterComplete(s, r, response); forall c :: c in t.requests ==> RequestSound(t, ttl, c)
  {
    hide RecordFiled, CellSound, AfterComplete;
    CompleteOnlyLands(s, r, response);
    var t := AfterComplete(s, r, response);
    forall c | c in t.requests ensures RequestSound(t, ttl, c) {
      assert RequestSound(s, ttl, c);
    }
  }

  lemma OtherStepsKeepRecords(s: State, ttl: int, e: Event)
    requires Sound(s, ttl) && Enabled(s, e) && !e.Begin? && !e.Complete?
    ensures var t := Next(s, ttl, e);
            && (forall id :: id in t.records ==> RecordFiled(t, id))
            && (forall c :: c in t.cells ==> CellSound(t, c))
  {
    hide RequestSound;
    var t := Next(s, ttl, e);
    forall id | id in t.records ensures RecordFiled(t, id) {
      assert RecordFiled(s, id);
    }
    forall c | c in t.cells ensures CellSound(t, c) {
      assert CellSound(s, c);
    }
  }

  lemma OtherStepsKeepRequests(s: State, ttl: int, e: Event)
    requires Sound(s, ttl) && Enabled(s, e) && !e.Begin? && !e.Complete?
    ensures var t := Next(s, ttl, e); forall c :: c in t.requests ==> RequestSound(t, ttl, c)
  {
    hide RecordFiled;
    var t := Next(s, ttl, e);
    if e.Send? { assert CellSound(s, s.requests[e.r].phase.source); }
    forall c | c in t.requests ensures RequestSound(t, ttl, c) {
      assert c in s.requests ==> RequestSound(s, ttl, c);
    }
  }

  lemma StepKeepsSound(s: State, ttl: int, e: Event)
    requires Sound(s, ttl) && Enabled(s, e)
    ensures Sound(Next(s, ttl, e), ttl)
  {
    match e
    case Begin(r) => BeginKeepsRecords(s, ttl, r); BeginKeepsRequests(s, ttl, r);
    case Complete(r, response) =>
      CompleteKeepsRecords(s, ttl, r, response);
      CompleteKeepsCells(s, ttl, r, response);
      CompleteKeepsRequests(s, ttl, r, response);
    case _ =>
      OtherStepsKeepRecords(s, ttl, e);
      OtherStepsKeepRequests(s, ttl, e);
  }

  lemma {:induction false} RunsAreSound(ttl: int, es: seq<Event>)
    requires After(ttl, es).At?
    ensures Sound(After(ttl, es).state, ttl)
  {
    if es != [] {
      RunsAreSound(ttl, es[..|es| - 1]);
      StepKeepsSound(After(ttl, es[..|es| - 1]).state, ttl, es[|es| - 1]);
    }
  }

  /** No key stays blocked: whatever the interleaving and however late the
      completions, an in-flight record belongs to a handler still at work. */
  lemma NoStuckKeys(ttl: int, es: seq<Event>)
    requires After(ttl, es).At?
    ensures var s := After(ttl, es).state;
            forall id :: id in s.records && s.records[id] in s.cells && s.cells[s.records[id]].inFlight ==>
              InPhase(s, s.records[id], (p: Phase) => p.Running?)
    ensures var s := After(ttl, es).state;
            (forall r :: r in s.requests ==> !s.requests[r].phase.Running?) ==>
            forall id :: id in s.records ==> s.records[id] in s.cells && !s.cells[s.records[id]].inFlight
  {
    RunsAreSound(ttl, es);
  }

  // ----- Runs in which no in-flight record outlives the time to live -----

  /** No record still in flight has expired at the time `r` sampled. */
  ghost predicate NoneOutlived(s: State, ttl: int, r: RequestId)
    requires r in s.requests
  {
    forall id :: id in s.records && s.records[id] in s.cells && s.cells[s.records[id]].inFlight ==>
      !IsExpired(s.cells[s.records[id]].createdAt, s.requests[r].now, ttl)
  }

  /** The timing assumption on one step: a first critical section meets no
      expired in-flight record, and got the lock within `wait` of its sample. */
  ghost predicate Timely(s: State, ttl: int, wait: nat, e: Event)
    requires Enabled(s, e)
  {
    e.Begin? ==> NoneOutlived(s, ttl, e.r) && s.clock - s.requests[e.r].now <= wait
  }

  ghost predicate TimelyRun(ttl: int, wait: nat, es: seq<Event>)
    requires After(ttl, es).At?
  {
    es == [] ||
    (TimelyRun(ttl, wait, es[..|es| - 1]) &&
     Timely(After(ttl, es[..|es| - 1]).state, ttl, wait, es[|es| - 1]))
  }

  predicate IsSuccess(p: Phase) {
    p.Finished? && IsKept(p.response.status)
  }

  /** A running handler's own record is the one in the table. */
  ghost predicate RunnerOwns(s: State, r: RequestId)
    requires r in s.requests
  {
    s.requests[r].phase.Running? ==>
      var id := s.requests[r].Id();
      id in s.records && s.records[id] == r && r in s.cells && s.cells[r].inFlight
  }

  /** A completed record holds the response of its own creator. */
  ghost predicate CellTruthful(s: State, r: RequestId)
    requires r in s.cells
  {
    !s.cells[r].inFlight ==> r in s.requests && s.requests[r].phase == Finished(s.cells[r].response)
  }

  ghost predicate ReplayTruthful(s: State, r: RequestId)
    requires r in s.requests
  {
    var p := s.requests[r].phase;
    IsReplay(p) ==>
      && p.source in s.requests && p.source in s.cells && !s.cells[p.source].inFlight
      && s.requests[p.source].phase == Finished(s.cells[p.source].response)
      && p.headerType == s.cells[p.source].response.contentType
      && (p.Replayed? ==> p.sent == s.cells[p.source].response)
  }

  /** A successful execution is in the table until more than `ttl` has passed. */
  ghost predicate Remembered(s: State, ttl: int, r: RequestId)
    requires r in s.requests
  {
    IsSuccess(s.requests[r].phase) ==>
      var id := s.requests[r].Id();
      || (id in s.records && s.records[id] == r && r in s.cells && !s.cells[r].inFlight)
      || s.clock > s.requests[r].now + ttl
  }

  predicate FarApart(a: int, b: int, span: int) {
    a - b > span || b - a > span
  }

  /** A success and another execution of the same key did not begin close together. */
  ghost predicate Spaced(s: State, span: int, r: RequestId, q: RequestId)
    requires r in s.requests && q in s.requests
  {
    && r != q
    && s.requests[r].Id() == s.requests[q].Id()
    && IsSuccess(s.requests[r].phase)
    && (s.requests[q].phase.Running? || IsSuccess(s.requests[q].phase))
    ==> FarApart(s.requests[r].now, s.requests[q].now, span)
  }

  ghost predicate Owned(s: State) {
    && (forall r :: r in s.requests ==> RunnerOwns(s, r))
    && (forall r :: r in s.cells ==> CellTruthful(s, r))
    && (forall r :: r in s.requests ==> ReplayTruthful(s, r))
  }

  ghost predicate Apart(s: State, ttl: int, wait: nat) {
    && (forall r :: r in s.requests ==> Remembered(s, ttl, r))
    && (forall r, q :: r in s.requests && q in s.requests ==> Spaced(s, ttl - wait, r, q))
  }

  lemma BeginKeepsRunners(s: State, ttl: int, r: RequestId)
    requires Sound(s, ttl) && Owned(s) && Enabled(s, Begin(r)) && NoneOutlived(s, ttl, r)
    ensures var t := AfterBegin(s, ttl, r); forall c :: c in t.requests ==> RunnerOwns(t, c)
  {
    hide RequestSound, RecordFiled, ReplayTruthful, CellTruthful;
    BeginIsFirst(s, ttl, r);
    var t := AfterBegin(s, ttl, r);
    forall c | c in t.requests ensures RunnerOwns(t, c) {
      assert RunnerOwns(s, c);
    }
  }

  lemma BeginKeepsReplays(s: State, ttl: int, r: RequestId)
    requires Sound(s, ttl) && Owned(s) && Enabled(s, Begin(r))
    ensures var t := AfterBegin(s, ttl, r); forall c :: c in t.requests ==> ReplayTruthful(t, c)
  {
    hide RequestSound, RecordFiled, RunnerOwns;
    BeginIsFirst(s, ttl, r);
    var t := AfterBegin(s, ttl, r);
    forall c | c in t.requests ensures ReplayTruthful(t, c) {
      assert ReplayTruthful(s, c);
      if c == r && t.requests[r].phase.Replaying? {
        assert CellTruthful(s, t.requests[r].phase.source);
      }
    }
  }

  lemma BeginKeepsTruth(s: State, ttl: int, r: RequestId)
    requires Sound(s, ttl) && Owned(s) && Enabled(s, Begin(r))
    ensures var t := AfterBegin(s, ttl, r); forall c :: c in t.cells ==> CellTruthful(t, c)
  {
    hide RequestSound, RecordFiled, RunnerOwns, ReplayTruthful;
    BeginIsFirst(s, ttl, r);
    var t := AfterBegin(s, ttl, r);
    forall c | c in t.cells ensures CellTruthful(t, c) {
      assert c != r ==> CellTruthful(s, c);
    }
  }

  lemma BeginKeepsOwned(s: State, ttl: int, r: RequestId)
    requires Sound(s, ttl) && Owned(s) && Enabled(s, Begin(r)) && NoneOutlived(s, ttl, r)
    ensures Owned(AfterBegin(s, ttl, r))
  {
    hide RunnerOwns, CellTruthful, ReplayTruthful;
    BeginKeepsRunners(s, ttl, r);
    BeginKeepsReplays(s, ttl, r);
    BeginKeepsTruth(s, ttl, r);
  }

  /** A running handler that owns its record completes that record and no other. */
  lemma CompleteTouchesOwn(s: State, r: RequestId, response: Response)
    requires r in s.requests && s.requests[r].phase.Running? && RunnerOwns(s, r)
    ensures var t := AfterComplete(s, r, response);
            && t.records == (if IsKept(response.status) then s.records else s.records - {s.requests[r].Id()})
            && t.cells == (if IsKept(response.status)
                           then s.cells[r := s.cells[r].(inFlight := false, response := response)] else s.cells)
            && t.requests == Moved(s, r, Finished(response)) && t.clock == s.clock
  {
  }

  lemma CompleteKeepsRunners(s: State, ttl: int, r: RequestId, response: Response)
    requires Sound(s, ttl) && Owned(s) && Enabled(s, Complete(r, response))
    ensures var t := AfterComplete(s, r, response);
            && (forall c :: c in t.requests ==> RunnerOwns(t, c))
            && (forall c :: c in t.cells ==> CellTruthful(t, c))
  {
    hide RequestSound, RecordFiled, ReplayTruthful, AfterComplete;
    CompleteTouchesOwn(s, r, response);
    var t := AfterComplete(s, r, response);
    forall c | c in t.requests ensures RunnerOwns(t, c) {
      assert RunnerOwns(s, c);
    }
    forall c | c in t.cells ensures CellTruthful(t, c) {
      assert CellTruthful(s, c);
    }
  }

  lemma CompleteKeepsReplays(s: State, ttl: int, r: RequestId, response: Response)
    requires Sound(s, ttl) && Owned(s) && Enabled(s, Complete(r, response))
    ensures var t := AfterComplete(s, r, response); forall c :: c in t.requests ==> ReplayTruthful(t, c)
  {
    hide RequestSound, RecordFiled, CellTruthful, AfterComplete;
    CompleteTouchesOwn(s, r, response);
    var t := AfterComplete(s, r, response);
    forall c | c in t.requests ensures ReplayTruthful(t, c) {
      assert ReplayTruthful(s, c);
    }
  }

  lemma CompleteKeepsOwned(s: State, ttl: int, r: RequestId, response: Response)
    requires Sound(s, ttl) && Owned(s) && Enabled(s, Complete(r, response))
    ensures Owned(AfterComplete(s, r, response))
  {
    hide RunnerOwns, CellTruthful, ReplayTruthful;
    CompleteKeepsRunners(s, ttl, r, response);
    CompleteKeepsReplays(s, ttl, r, response);
  }

  lemma OtherStepsKeepRunners(s: State, ttl: int, e: Event)
    requires Sound(s, ttl) && Owned(s) && Enabled(s, e) && !e.Begin? && !e.Complete?
    ensures var t := Next(s, ttl, e);
            && (forall c :: c in t.requests ==> RunnerOwns(t, c))
            && (forall c :: c in t.cells ==> CellTruthful(t, c))
  {
    hide RequestSound, RecordFiled, ReplayTruthful;
    var t := Next(s, ttl, e);
    forall c | c in t.requests ensures RunnerOwns(t, c) {
      assert c in s.requests ==> RunnerOwns(s, c);
    }
    forall c | c in t.cells ensures CellTruthful(t, c) {
      assert CellTruthful(s, c) && CellSound(s, c);
    }
  }

  lemma OtherStepsKeepReplays(s: State, ttl: int, e: Event)
    requires Sound(s, ttl) && Owned(s) && Enabled(s, e) && !e.Begin? && !e.Complete?
    ensures var t := Next(s, ttl, e); forall c :: c in t.requests ==> ReplayTruthful(t, c)
  {
    hide RequestSound, RecordFiled, RunnerOwns, CellTruthful;
    var t := Next(s, ttl, e);
    forall c | c in t.requests ensures ReplayTruthful(t, c) {
      assert c in s.requests ==> ReplayTruthful(s, c);
    }
  }

  lemma OtherStepsKeepOwned(s: State, ttl: int, e: Event)
    requires Sound(s, ttl) && Owned(s) && Enabled(s, e) && !e.Begin? && !e.Complete?
    ensures Owned(Next(s, ttl, e))
  {
    OtherStepsKeepRunners(s, ttl, e);
    OtherStepsKeepReplays(s, ttl, e);
    hide Next, RunnerOwns, CellTruthful, ReplayTruthful;
  }

  lemma BeginKeepsMemory(s: State, ttl: int, wait: nat, r: RequestId)
    requires Sound(s, ttl) && Apart(s, ttl, wait) && Enabled(s, Begin(r))
    ensures var t := AfterBegin(s, ttl, r); forall c :: c in t.requests ==> Remembered(t, ttl, c)
  {
    hide RecordFiled, Spaced;
    BeginIsFirst(s, ttl, r);
    var t := AfterBegin(s, ttl, r);
    assert RequestSound(s, ttl, r);
    forall c | c in t.requests ensures Remembered(t, ttl, c) {
      assert Remembered(s, ttl, c);
      assert c in s.cells ==> CellSound(s, c);
    }
  }

  lemma BeginKeepsSpacing(s: State, ttl: int, wait: nat, r: RequestId)
    requires Sound(s, ttl) && Apart(s, ttl, wait) && Enabled(s, Begin(r)) && Timely(s, ttl, wait, Begin(r))
    ensures var t := AfterBegin(s, ttl, r);
            forall c, q :: c in t.requests && q in t.requests ==> Spaced(t, ttl - wait, c, q)
  {
    hide RequestSound, CellSound, RecordFiled, NoneOutlived;
    BeginKeepsMemory(s, ttl, wait, r);
    var t := AfterBegin(s, ttl, r);
    forall c, q | c in t.requests && q in t.requests ensures Spaced(t, ttl - wait, c, q) {
      assert Spaced(s, ttl - wait, c, q) && Remembered(t, ttl, c);
    }
  }

  lemma BeginKeepsApart(s: State, ttl: int, wait: nat, r: RequestId)
    requires Sound(s, ttl) && Apart(s, ttl, wait) && Enabled(s, Begin(r)) && Timely(s, ttl, wait, Begin(r))
    ensures Apart(AfterBegin(s, ttl, r), ttl, wait)
  {
    hide Remembered, Spaced;
    BeginKeepsMemory(s, ttl, wait, r);
    BeginKeepsSpacing(s, ttl, wait, r);
  }

  lemma CompleteKeepsMemory(s: State, ttl: int, wait: nat, r: RequestId, response: Response)
    requires Owned(s) && Apart(s, ttl, wait) && Enabled(s, Complete(r, response))
    ensures var t := AfterComplete(s, r, response); forall c :: c in t.requests ==> Remembered(t, ttl, c)
  {
    hide Spaced, AfterComplete, CellTruthful, ReplayTruthful;
    CompleteTouchesOwn(s, r, response);
    var t := AfterComplete(s, r, response);
    forall c | c in t.requests ensures Remembered(t, ttl, c) {
      assert Remembered(s, ttl, c);
    }
  }

  lemma CompleteKeepsSpacing(s: State, ttl: int, wait: nat, r: RequestId, response: Response)
    requires Owned(s) && Apart(s, ttl, wait) && Enabled(s, Complete(r, response))
    ensures var t := AfterComplete(s, r, response);
            forall c, q :: c in t.requests && q in t.requests ==> Spaced(t, ttl - wait, c, q)
  {
    hide Remembered, AfterComplete, CellTruthful, ReplayTruthful;
    CompleteTouchesOwn(s, r, response);
    var t := AfterComplete(s, r, response);
    forall c, q | c in t.requests && q in t.requests ensures Spaced(t, ttl - wait, c, q) {
      assert Spaced(s, ttl - wait, c, q) && Spaced(s, ttl - wait, q, c);
      assert RunnerOwns(s, c) && RunnerOwns(s, q);
    }
  }

  lemma CompleteKeepsApart(s: State, ttl: int, wait: nat, r: RequestId, response: Response)
    requires Owned(s) && Apart(s, ttl, wait) && Enabled(s, Complete(r, response))
    ensures Apart(AfterComplete(s, r, response), ttl, wait)
  {
    hide Remembered, Spaced;
    CompleteKeepsMemory(s, ttl, wait, r, response);
    CompleteKeepsSpacing(s, ttl, wait, r, response);
  }

  lemma OtherStepsKeepApart(s: State, ttl: int, wait: nat, e: Event)
    requires Sound(s, ttl) && Owned(s) && Apart(s, ttl, wait) && Enabled(s, e) && !e.Begin? && !e.Complete?
    ensures Apart(Next(s, ttl, e), ttl, wait)
  {
    var t := Next(s, ttl, e);
    forall c | c in t.requests ensures Remembered(t, ttl, c) {
      assert c in s.requests ==> Remembered(s, ttl, c);
    }
    forall c, q | c in t.requests && q in t.requests ensures Spaced(t, ttl - wait, c, q) {
      assert c in s.requests && q in s.requests ==> Spaced(s, ttl - wait, c, q);
    }
  }

  lemma {:induction false} TimelyRunsKeep(ttl: int, wait: nat, es: seq<Event>)
    requires After(ttl, es).At? && TimelyRun(ttl, wait, es)
    ensures var s := After(ttl, es).state; Sound(s, ttl) && Owned(s) && Apart(s, ttl, wait)
  {
    RunsAreSound(ttl, es);
    if es != [] {
      TimelyRunsKeep(ttl, wait, es[..|es| - 1]);
      var s, e := After(ttl, es[..|es| - 1]).state, es[|es| - 1];
      match e
      case Begin(r) => BeginKeepsOwned(s, ttl, r); BeginKeepsApart(s, ttl, wait, r);
      case Complete(r, response) =>
        CompleteKeepsOwned(s, ttl, r, response);
        CompleteKeepsApart(s, ttl, wait, r, response);
      case _ => OtherStepsKeepOwned(s, ttl, e); OtherStepsKeepApart(s, ttl, wait, e);
    }
  }

  /** Exactly once per time to live: one key never has two handlers at work,
      and two executions that both succeeded began more than `ttl` apart, up to
      the longest wait for the lock. */
  lemma ExactlyOnce(ttl: int, wait: nat, es: seq<Event>, r: RequestId, q: RequestId)
    requires After(ttl, es).At? && TimelyRun(ttl, wait, es)
    requires var s := After(ttl, es).state;
             && r != q && r in s.requests && q in s.requests
             && s.requests[r].path == s.requests[q].path && s.requests[r].key == s.requests[q].key
    ensures var s := After(ttl, es).state;
            && !(s.requests[r].phase.Running? && s.requests[q].phase.Running?)
            && (IsSuccess(s.requests[r].phase) && IsSuccess(s.requests[q].phase) ==>
                  FarApart(s.requests[r].now, s.requests[q].now, ttl - wait))
  {
    TimelyRunsKeep(ttl, wait, es);
    var s := After(ttl, es).state;
    assert RunnerOwns(s, r) && RunnerOwns(s, q) && Spaced(s, ttl - wait, r, q);
  }

  /** Replay fidelity: although the body is read after the lock is released, a
      replay sends exactly what one successful execution of the same call
      answered, and that execution began at most `ttl` before. */
  lemma ReplayFidelity(ttl: int, wait: nat, es: seq<Event>, r: RequestId)
    requires After(ttl, es).At? && TimelyRun(ttl, wait, es)
    requires InPhase(After(ttl, es).state, r, (p: Phase) => p.Replayed?)
    ensures var s := After(ttl, es).state;
            var p := s.requests[r].phase;
            && p.source in s.requests
            && IsSuccess(s.requests[p.source].phase)
            && p.sent == s.requests[p.source].phase.response
            && p.headerType == p.sent.contentType
            && SameCallWithin(s.requests[p.source], s.requests[r], ttl)
  {
    TimelyRunsKeep(ttl, wait, es);
    var s := After(ttl, es).state;
    assert ReplayTruthful(s, r) && RequestSound(s, ttl, r);
    assert CellSound(s, s.requests[r].phase.source);
  }

  // ----- The protocol's critical sections are those of the store -----

  function ViewOf(s: State): map<string, Cell> {
    map id | id in s.records && s.records[id] in s.cells :: s.cells[s.records[id]]
  }

  function DecisionOf(p: Phase): Decision {
    match p
    case Refused(decision) => decision
    case Replaying(_, _) => Replay
    case _ => Claim
  }

  lemma LiveIsEvicted(s: State, now: int, ttl: int)
    requires forall id :: id in s.records ==> RecordFiled(s, id)
    ensures ViewOf(s.(records := Live(s, now, ttl))) == Evicted(ViewOf(s), now, ttl)
  {
  }

  lemma ClaimingExtendsView(s: State, live: map<string, RequestId>, id: string, r: RequestId, cell: Cell)
    requires r !in s.cells
    requires forall i :: i in live ==> live[i] in s.cells
    ensures ViewOf(s.(records := live[id := r], cells := s.cells[r := cell])) ==
            ViewOf(s.(records := live))[id := cell]
  {
  }

  lemma ViewIgnoresRequests(s: State, requests: map<RequestId, Request>)
    ensures ViewOf(s.(requests := requests)) == ViewOf(s)
  {
  }

  lemma BeginRefinesStore(s: State, ttl: int, r: RequestId)
    requires Sound(s, ttl) && Enabled(s, Begin(r))
    ensures var t := AfterBegin(s, ttl, r);
            var q := s.requests[r];
            && ViewOf(t) == BeginView(ViewOf(s), ttl, q.Id(), q.bodyHash, q.now).0
            && DecisionOf(t.requests[r].phase) == BeginView(ViewOf(s), ttl, q.Id(), q.bodyHash, q.now).1
  {
    hide CellSound, RequestSound;
    var q := s.requests[r];
    var live := Live(s, q.now, ttl);
    BeginIsFirst(s, ttl, r);
    LiveIsEvicted(s, q.now, ttl);
    assert q.Id() in live <==> q.Id() in ViewOf(s.(records := live));
    ClaimingExtendsView(s, live, q.Id(), r, Claimed(q.bodyHash, q.now));
    ViewIgnoresRequests(s.(records := live), AfterBegin(s, ttl, r).requests);
  }

  lemma CellUpdateUpdatesView(s: State, id: string, cell: Cell)
    requires id in s.records && s.records[id] in s.cells
    requires forall i :: i in s.records && i != id ==> s.records[i] != s.records[id]
    ensures ViewOf(s.(cells := s.cells[s.records[id] := cell])) == ViewOf(s)[id := cell]
  {
  }

  lemma RecordRemovalShrinksView(s: State, id: string)
    ensures ViewOf(s.(records := s.records - {id})) == ViewOf(s) - {id}
  {
  }

  lemma CompleteRefinesStore(s: State, ttl: int, r: RequestId, response: Response)
    requires Sound(s, ttl) && Enabled(s, Complete(r, response))
    ensures ViewOf(AfterComplete(s, r, response)) == CompleteView(ViewOf(s), s.requests[r].Id(), response)
  {
    hide CellSound, RequestSound;
    var id := s.requests[r].Id();
    if id in s.records {
      assert RecordFiled(s, id);
      forall i | i in s.records && i != id ensures s.records[i] != s.records[id] && s.records[i] in s.cells {
        assert RecordFiled(s, i);
      }
      var target := s.records[id];
      CellUpdateUpdatesView(s, id, s.cells[target].(inFlight := false, response := response));
      RecordRemovalShrinksView(s, id);
      var t := AfterComplete(s, r, response);
      ViewIgnoresRequests(s.(records := t.records, cells := t.cells), t.requests);
    } else {
      ViewIgnoresRequests(s, AfterComplete(s, r, response).requests);
    }
  }
}
