/** The recorder the idempotency middleware puts between a handler and the
    connection, and when what it records is what the client was sent. */
module ResponseRecorder {
  import IdempotencyStore

  const STATUS_OK: int := 200

  /** A status and the bytes written so far; status 0 stands for none yet. */
  datatype Written = Written(status: int, body: string)

  const NOTHING: Written := Written(0, "")

  /** A call of the handler. It may not reach the connection at all, as when the
      request has been timed out; of a body that does, the connection accepts the
      first part and refuses the rest. */
  datatype Call =
    | Header(code: int, reaches: bool)
    | Body(accepted: string, refused: string, reaches: bool)

  /** The recorder takes over every status it is given and the whole body. */
  function Record(w: Written, c: Call): Written {
    match c
    case Header(code, _) => w.(status := code)
    case Body(accepted, refused, _) =>
      Written(if w.status == 0 then STATUS_OK else w.status, w.body + accepted + refused)
  }

  /** The connection commits to the first status that reaches it, implied by a
      body if need be, and sends the bytes it accepts. */
  function Transmit(w: Written, c: Call): Written {
    if !c.reaches then w
    else
      match c
      case Header(code, _) => w.(status := if w.status == 0 then code else w.status)
      case Body(accepted, _, _) => Written(if w.status == 0 then STATUS_OK else w.status, w.body + accepted)
  }

  function WriteCall(data: string, capacity: nat, reaches: bool): Call {
    if !reaches then Body("", data, false)
    else if capacity < |data| then Body(data[..capacity], data[capacity..], true)
    else Body(data, "", true)
  }

  class Connection {
    var status: int
    var body: string

    constructor ()
      ensures View() == NOTHING
    {
      status, body := 0, "";
    }

    function View(): Written
      reads this
    {
      Written(status, body)
    }

    method WriteHeader(code: int, reaches: bool)
      modifies this
      ensures View() == Transmit(old(View()), Header(code, reaches))
    {
      if reaches && status == 0 {
        status := code;
      }
    }

    /** `capacity` is what the connection can still take; a short count is an error. */
    method Write(data: string, capacity: nat, reaches: bool) returns (n: nat)
      modifies this
      ensures n == if !reaches then 0 else if capacity < |data| then capacity else |data|
      ensures body == old(body) + data[..n]
      ensures status == if reaches && old(status) == 0 then 200 else old(status)
      ensures View() == Transmit(old(View()), WriteCall(data, capacity, reaches))
      ensures n == |WriteCall(data, capacity, reaches).accepted|
    {
      if !reaches {
        return 0;
      }
      if status == 0 {
        status := STATUS_OK;
      }
      n := if capacity < |data| then capacity else |data|;
      body := body + data[..n];
    }
  }

  class Recorder {
    const writer: Connection
    var statusCode: int
    var body: string

    constructor (writer: Connection)
      ensures this.writer == writer && View() == NOTHING
    {
      this.writer := writer;
      statusCode, body := 0, "";
    }

    function View(): Written
      reads this
    {
      Written(statusCode, body)
    }

    /** Records the last status, while the connection keeps the first that reaches it. */
    method WriteHeader(code: int, reaches: bool)
      modifies this, writer
      ensures statusCode == code && body == old(body)
      ensures writer.status == (if reaches && old(writer.status) == 0 then code else old(writer.status))
      ensures writer.body == old(writer.body)
      ensures View() == Record(old(View()), Header(code, reaches))
      ensures writer.View() == Transmit(old(writer.View()), Header(code, reaches))
    {
      statusCode := code;
      writer.WriteHeader(code, reaches);
    }

    /** Records the whole of `data` and reports the connection's own count. */
    method Write(data: string, capacity: nat, reaches: bool) returns (n: nat)
      modifies this, writer
      ensures n == if !reaches then 0 else if capacity < |data| then capacity else |data|
      ensures body == old(body) + data && writer.body == old(writer.body) + data[..n]
      ensures statusCode == if old(statusCode) == 0 then 200 else old(statusCode)
      ensures writer.status == if reaches && old(writer.status) == 0 then 200 else old(writer.status)
      ensures View() == Record(old(View()), WriteCall(data, capacity, reaches))
      ensures writer.View() == Transmit(old(writer.View()), WriteCall(data, capacity, reaches))
      ensures n == |WriteCall(data, capacity, reaches).accepted|
    {
      if statusCode == 0 {
        statusCode := STATUS_OK;
      }
      assert capacity < |data| ==> body + data[..capacity] + data[capacity..] == body + data;
      assert body + "" + data == body + data + "" == body + data;
      body := body + data;
      n := writer.Write(data, capacity, reaches);
    }
  }

  // ----- Whole responses -----

  function Recorded(calls: seq<Call>): Written {
    if calls == [] then NOTHING else Record(Recorded(calls[..|calls| - 1]), calls[|calls| - 1])
  }

  function Transmitted(calls: seq<Call>): Written {
    if calls == [] then NOTHING else Transmit(Transmitted(calls[..|calls| - 1]), calls[|calls| - 1])
  }

  predicate RealStatuses(calls: seq<Call>) {
    forall c :: c in calls && c.Header? ==> c.code > 0
  }

  /** Of the body of a call nothing is lost on the way. */
  predicate IsSent(c: Call) {
    c.Body? ==> c.refused == "" && (c.reaches || c.accepted == "")
  }

  predicate AllSent(calls: seq<Call>) {
    forall c :: c in calls ==> IsSent(c)
  }

  /** The status a call asks for on its own. */
  function AsksFor(c: Call): int {
    if c.Header? then c.code else STATUS_OK
  }

  /** The status of the first call that reaches the connection; 0 if none does. */
  function FirstReaching(calls: seq<Call>): int {
    if calls == [] then 0 else if calls[0].reaches then AsksFor(calls[0]) else FirstReaching(calls[1..])
  }

  /** No header is written after call `i`. */
  predicate IsLastHeader(calls: seq<Call>, i: nat)
    requires i < |calls|
  {
    calls[i].Header? && forall j :: i < j < |calls| ==> calls[j].Body?
  }

  lemma {:induction false} FirstReachingSnoc(calls: seq<Call>, c: Call)
    requires RealStatuses(calls)
    ensures FirstReaching(calls + [c]) ==
            if FirstReaching(calls) == 0 && c.reaches then AsksFor(c) else FirstReaching(calls)
  {
    if calls == [] {
      assert [c][1..] == [];
    } else {
      assert calls[0] in calls && forall d :: d in calls[1..] ==> d in calls;
      FirstReachingSnoc(calls[1..], c);
      assert (calls + [c])[1..] == calls[1..] + [c];
    }
  }

  lemma {:induction false} TransmitsFirst(calls: seq<Call>)
    requires RealStatuses(calls)
    ensures Transmitted(calls).status == FirstReaching(calls)
  {
    if calls != [] {
      var front, last := calls[..|calls| - 1], calls[|calls| - 1];
      assert forall c :: c in front ==> c in calls;
      TransmitsFirst(front);
      FirstReachingSnoc(front, last);
      assert calls == front + [last];
    }
  }

  lemma {:induction false} RecordsLast(calls: seq<Call>, i: nat)
    requires i < |calls| && IsLastHeader(calls, i) && RealStatuses(calls)
    ensures Recorded(calls).status == calls[i].code
    decreases |calls|
  {
    var front := calls[..|calls| - 1];
    assert forall c :: c in front ==> c in calls;
    assert calls[i] in calls;
    if i < |front| { RecordsLast(front, i); }
  }

  lemma {:induction false} RecordsImplied(calls: seq<Call>)
    requires forall j :: 0 <= j < |calls| ==> calls[j].Body?
    ensures Recorded(calls).status == if calls == [] then 0 else STATUS_OK
  {
    if calls != [] { RecordsImplied(calls[..|calls| - 1]); }
  }

  /** Bytes that are lost are recorded all the same. */
  lemma {:induction false} BodiesAgreeIff(calls: seq<Call>)
    ensures |Transmitted(calls).body| <= |Recorded(calls).body|
    ensures Recorded(calls).body == Transmitted(calls).body <==> AllSent(calls)
    ensures |Recorded(calls).body| == |Transmitted(calls).body| <==> AllSent(calls)
  {
    if calls != [] {
      var front, last := calls[..|calls| - 1], calls[|calls| - 1];
      BodiesAgreeIff(front);
      assert calls == front + [last];
      assert AllSent(calls) <==> AllSent(front) && IsSent(last);
      hide AllSent;
    }
  }

  lemma {:induction false} NoHeaders(calls: seq<Call>, n: nat)
    requires n <= |calls| && forall i: nat :: i < |calls| ==> !IsLastHeader(calls, i)
    ensures forall j :: |calls| - n <= j < |calls| ==> calls[j].Body?
  {
    if n > 0 {
      NoHeaders(calls, n - 1);
      assert !IsLastHeader(calls, |calls| - n);
    }
  }

  /** The last header repeats the first status that reached the connection, or
      without any header that one is the implied one. */
  predicate StatusRepeated(calls: seq<Call>) {
    && (forall i: nat :: i < |calls| && IsLastHeader(calls, i) ==> calls[i].code == FirstReaching(calls))
    && (calls != [] && (forall i: nat :: i < |calls| ==> calls[i].Body?) ==> FirstReaching(calls) == STATUS_OK)
  }

  lemma StatusesAgreeIff(calls: seq<Call>)
    requires RealStatuses(calls)
    ensures Recorded(calls).status == Transmitted(calls).status <==> StatusRepeated(calls)
  {
    hide Recorded, Transmitted;
    TransmitsFirst(calls);
    forall i: nat | i < |calls| && IsLastHeader(calls, i) ensures Recorded(calls).status == calls[i].code {
      RecordsLast(calls, i);
    }
    if forall i: nat :: i < |calls| ==> !IsLastHeader(calls, i) {
      NoHeaders(calls, |calls|);
      RecordsImplied(calls);
      assert calls == [] ==> FirstReaching(calls) == 0;
    }
  }

  /** What is recorded is what was sent exactly when no byte is lost and the last
      header written repeats the first status that reached the connection. */
  lemma RecordingFaithfulIff(calls: seq<Call>)
    requires RealStatuses(calls)
    ensures Recorded(calls).body == Transmitted(calls).body <==> AllSent(calls)
    ensures Recorded(calls) == Transmitted(calls) <==> AllSent(calls) && StatusRepeated(calls)
  {
    hide Recorded, Transmitted, AllSent, StatusRepeated;
    BodiesAgreeIff(calls);
    StatusesAgreeIff(calls);
  }

  /** A handler that writes its header once, before the body, as the service's
      handlers do, over a connection that the header reaches, is recorded as sent
      exactly when nothing of the body is lost. */
  lemma HeaderFirstIsFaithfulIff(code: int, bodies: seq<Call>)
    requires code > 0 && forall j :: 0 <= j < |bodies| ==> bodies[j].Body?
    ensures var calls := [Header(code, true)] + bodies;
            && Recorded(calls).status == Transmitted(calls).status == code
            && (Recorded(calls) == Transmitted(calls) <==> AllSent(bodies))
  {
    var calls := [Header(code, true)] + bodies;
    assert forall i :: 0 < i < |calls| ==> calls[i] == bodies[i - 1];
    assert IsLastHeader(calls, 0);
    assert AllSent(calls) <==> AllSent(bodies) by {
      assert forall c :: c in calls <==> c == Header(code, true) || c in bodies;
    }
    hide AllSent, StatusRepeated;
    RecordingFaithfulIff(calls);
    RecordsLast(calls, 0);
    TransmitsFirst(calls);
  }

  /** A success that does not reach the connection, whether its body alone is
      refused or the request was timed out before, is kept for replays all the
      same, with bytes the client was never sent. */
  lemma LostSuccessIsKept(code: int, data: string, timedOut: bool)
    requires 200 <= code < 400 && data != ""
    ensures var calls := [Header(code, !timedOut), WriteCall(data, 0, !timedOut)];
            && Recorded(calls) == Written(code, data) && IdempotencyStore.IsKept(Recorded(calls).status)
            && Transmitted(calls) == if timedOut then NOTHING else Written(code, "")
  {
    var header := Header(code, !timedOut);
    var calls := [header, WriteCall(data, 0, !timedOut)];
    assert data[..0] == "" && data[0..] == data && calls[1] == Body("", data, !timedOut);
    assert calls[..1] == [header] && [header][..0] == [];
    assert Recorded([header]) == Written(code, "");
    assert Transmitted([header]) == if timedOut then NOTHING else Written(code, "");
    assert "" + "" + data == data;
  }
}
