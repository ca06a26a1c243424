/** What the two critical sections do to a request, with the statuses and the
    conditions written out: who is refused and why, which responses are kept, and
    which free their key at once. */
module IdempotencyOutcomes {
  import opened IdempotencyStore
  import opened IdempotencyProtocol

  /** In every reachable state a completed record, and everything a replay has
      sent, holds a status from 200 to 399. */
  lemma KeptStatuses(ttl: int, es: seq<Event>)
    requires After(ttl, es).At?
    ensures var s := After(ttl, es).state;
            && (forall id :: id in s.records ==> s.records[id] in s.cells)
            && (forall id :: id in s.records && !s.cells[s.records[id]].inFlight ==>
                  200 <= s.cells[s.records[id]].response.status < 400)
            && (forall r :: r in s.requests && s.requests[r].phase.Replayed? ==>
                  200 <= s.requests[r].phase.sent.status < 400)
  {
    RunsAreSound(ttl, es);
    var s := After(ttl, es).state;
    forall id | id in s.records
      ensures s.records[id] in s.cells
      ensures !s.cells[s.records[id]].inFlight ==> 200 <= s.cells[s.records[id]].response.status < 400
    {
      assert RecordFiled(s, id) && CellSound(s, s.records[id]);
    }
    forall r | r in s.requests && s.requests[r].phase.Replayed?
      ensures 200 <= s.requests[r].phase.sent.status < 400
    {
      assert RequestSound(s, ttl, r);
    }
  }

  /** Any other status leaves the key free: a begin of the same key right after
      runs the handler. */
  lemma FailureFreesKey(ttl: int, es: seq<Event>, r: RequestId, response: Response, b: RequestId)
    requires After(ttl, es).At? && Enabled(After(ttl, es).state, Complete(r, response))
    requires !(200 <= response.status < 400)
    requires var s := After(ttl, es).state;
             && Enabled(s, Begin(b))
             && s.requests[b].path == s.requests[r].path && s.requests[b].key == s.requests[r].key
    ensures var s := After(ttl, es).state;
            var t := Next(s, ttl, Complete(r, response));
            && RecordId(s.requests[r].path, s.requests[r].key) !in t.records
            && Enabled(t, Begin(b))
            && Next(t, ttl, Begin(b)).requests[b].phase == Running
  {
    RunsAreSound(ttl, es);
    var s := After(ttl, es).state;
    var id := RecordId(s.requests[r].path, s.requests[r].key);
    assert id in s.records ==> RecordFiled(s, id);
    hide Sound, RecordId;
  }

  /** A status from 200 to 399 leaves the request's own record completed with
      exactly its response, as long as no record in flight outlives its time to live. */
  lemma SuccessIsRecorded(ttl: int, wait: nat, es: seq<Event>, r: RequestId, response: Response)
    requires After(ttl, es).At? && TimelyRun(ttl, wait, es)
    requires Enabled(After(ttl, es).state, Complete(r, response)) && 200 <= response.status < 400
    ensures var s := After(ttl, es).state;
            var t := Next(s, ttl, Complete(r, response));
            var q := s.requests[r];
            && RecordId(q.path, q.key) in t.records && t.records[RecordId(q.path, q.key)] == r
            && r in t.cells && t.cells[r] == Cell(q.bodyHash, false, response, q.now)
  {
    TimelyRunsKeep(ttl, wait, es);
    var s := After(ttl, es).state;
    assert RunnerOwns(s, r);
    assert CellSound(s, r);
    hide Sound, Owned, Apart, RecordId;
  }

  /** What a begin decides in any reachable state: another payload under a live
      record is refused first, then a call in process; a live completed record is
      replayed, and without a live record the handler runs. */
  lemma BeginDecides(ttl: int, es: seq<Event>, r: RequestId)
    requires After(ttl, es).At? && Enabled(After(ttl, es).state, Begin(r))
    ensures var s := After(ttl, es).state;
            var (q, after) := (s.requests[r], Next(s, ttl, Begin(r)).requests[r].phase);
            var id := RecordId(q.path, q.key);
            if id !in s.records || s.records[id] !in s.requests
               || q.now - s.requests[s.records[id]].now > ttl then after == Running
            else
              var owner := s.records[id];
              && s.requests[owner].path == q.path && s.requests[owner].key == q.key
              && if s.requests[owner].bodyHash != q.bodyHash then after == Refused(PayloadConflict)
                 else if owner in s.cells && s.cells[owner].inFlight then
                   after == Refused(InProcess) && s.requests[owner].phase == Running
                 else after.Replaying? && after.source == owner
  {
    RunsAreSound(ttl, es);
    var s := After(ttl, es).state;
    var q := s.requests[r];
    var id := RecordId(q.path, q.key);
    SoundRequest(s, ttl, r);
    if id in s.records {
      var owner := s.records[id];
      assert RecordFiled(s, id) && CellSound(s, owner);
      SoundRequest(s, ttl, owner);
      RecordIdInjective(s.requests[owner].path, s.requests[owner].key, q.path, q.key);
    }
    hide Sound, RecordId;
  }
}
