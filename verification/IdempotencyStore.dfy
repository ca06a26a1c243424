/** The in-memory record table of the idempotency middleware: the ids its
    records are filed under, and the two critical sections that run under its
    lock. */
module IdempotencyStore {
  import opened Text

  const DEFAULT_TTL: int := 24 * 3600 * 1_000_000_000

  // ----- The keys that reach the table, and the ids their records get -----

  predicate IsHex(c: char) {
    '0' <= c <= '9' || 'a' <= c <= 'f' || 'A' <= c <= 'F'
  }

  predicate IsUuid(s: string) {
    && |s| == 36
    && (forall i :: 0 <= i < 36 ==>
          if i in {8, 13, 18, 23} then s[i] == '-' else IsHex(s[i]))
    && '1' <= s[14] <= '5'
    && s[19] in {'8', '9', 'a', 'b', 'A', 'B'}
  }

  predicate AllHex(s: string) {
    forall c :: c in s ==> '0' <= c <= '9' || 'a' <= c <= 'f' || 'A' <= c <= 'F'
  }

  /** Five groups of hexadecimal digits; the third starts with the version, the
      fourth with the variant. */
  predicate IsFiveGroups(s: string, a: string, b: string, c: string, d: string, e: string) {
    && s == a + "-" + b + "-" + c + "-" + d + "-" + e
    && |a| == 8 && |b| == 4 && |c| == 4 && |d| == 4 && |e| == 12
    && AllHex(a) && AllHex(b) && AllHex(c) && AllHex(d) && AllHex(e)
    && (c[0] == '1' || c[0] == '2' || c[0] == '3' || c[0] == '4' || c[0] == '5')
    && (d[0] == '8' || d[0] == '9' || d[0] == 'a' || d[0] == 'b' || d[0] == 'A' || d[0] == 'B')
  }

  lemma UuidIff(s: string)
    ensures IsUuid(s) <==> exists a, b, c, d, e :: IsFiveGroups(s, a, b, c, d, e)
  {
    if IsUuid(s) {
      var a, b, c, d, e := s[..8], s[9..13], s[14..18], s[19..23], s[24..];
      assert s == a + "-" + b + "-" + c + "-" + d + "-" + e;
      assert IsFiveGroups(s, a, b, c, d, e);
    }
    if a, b, c, d, e :| IsFiveGroups(s, a, b, c, d, e) {
      GroupsMakeUuid(s, a, b, c, d, e);
    }
  }

  lemma GroupsMakeUuid(s: string, a: string, b: string, c: string, d: string, e: string)
    requires IsFiveGroups(s, a, b, c, d, e)
    ensures IsUuid(s)
  {
    assert s[..8] == a && s[9..13] == b && s[14..18] == c && s[19..23] == d && s[24..] == e;
    forall i | 0 <= i < 36 && i !in {8, 13, 18, 23} ensures IsHex(s[i]) {
      assert s[i] in if i < 8 then a else if i < 13 then b else if i < 18 then c else if i < 23 then d else e;
    }
  }

  function RecordId(path: string, key: string): string {
    Join(Join("POST", path), key)
  }

  /** Route paths may contain colons; the fixed width of the key still keeps
      the record ids of different (path, key) pairs apart. */
  lemma RecordIdInjective(p: string, k: string, q: string, l: string)
    requires IsUuid(k) && IsUuid(l)
    requires RecordId(p, k) == RecordId(q, l)
    ensures p == q && k == l
  {
    JoinSplits(Join("POST", p), k);
    JoinSplits(Join("POST", q), l);
    assert |Join("POST", p)| == |Join("POST", q)|;
    JoinSplits("POST", p);
    JoinSplits("POST", q);
  }

  // ----- The table, by value -----

  datatype Response = Response(status: int, body: string, contentType: string)

  /** Statuses whose response is kept for replays. */
  predicate IsKept(status: int) {
    200 <= status < 400
  }

  datatype Cell = Cell(bodyHash: string, inFlight: bool, response: Response, createdAt: int)

  const NO_RESPONSE: Response := Response(0, "", "")

  function Claimed(bodyHash: string, now: int): Cell {
    Cell(bodyHash, true, NO_RESPONSE, now)
  }

  predicate IsExpired(createdAt: int, now: int, ttl: int) {
    now - createdAt > ttl
  }

  function Evicted(view: map<string, Cell>, now: int, ttl: int): map<string, Cell> {
    map id | id in view && !IsExpired(view[id].createdAt, now, ttl) :: view[id]
  }

  datatype Decision = PayloadConflict | InProcess | Replay | Claim

  function Decide(view: map<string, Cell>, id: string, bodyHash: string): Decision {
    if id !in view then Claim
    else if view[id].bodyHash != bodyHash then PayloadConflict
    else if view[id].inFlight then InProcess
    else Replay
  }

  function BeginView(view: map<string, Cell>, ttl: int, id: string, bodyHash: string, now: int)
    : (map<string, Cell>, Decision)
  {
    var live := Evicted(view, now, ttl);
    var decision := Decide(live, id, bodyHash);
    (if decision.Claim? then live[id := Claimed(bodyHash, now)] else live, decision)
  }

  /** What the handler is taken to have answered: where it wrote nothing, so that
      the recorder has no status, the status the framework presets. */
  function Answered(recorded: Response, presetStatus: int): Response {
    if recorded.status == 0 then recorded.(status := presetStatus) else recorded
  }

  function CompleteView(view: map<string, Cell>, id: string, response: Response): map<string, Cell> {
    if id !in view then view
    else if IsKept(response.status) then view[id := view[id].(inFlight := false, response := response)]
    else view - {id}
  }

  // ----- The table, in place -----

  class IdempotencyRecord {
    const bodyHash: string
    const createdAt: int
    var inFlight: bool
    var statusCode: int
    var response: string
    var contentType: string

    constructor (bodyHash: string, createdAt: int)
      ensures AsCell() == Claimed(bodyHash, createdAt)
    {
      this.bodyHash, this.createdAt := bodyHash, createdAt;
      inFlight, statusCode, response, contentType := true, 0, "", "";
    }

    function AsCell(): Cell
      reads this
    {
      Cell(bodyHash, inFlight, Response(statusCode, response, contentType), createdAt)
    }
  }

  class Store {
    const ttl: int
    var records: map<string, IdempotencyRecord>

    /** No record is filed under two ids. */
    ghost predicate Valid()
      reads this
    {
      ttl > 0 && forall i, j :: i in records && j in records && i != j ==> records[i] != records[j]
    }

    ghost function View(): map<string, Cell>
      reads this, records.Values
    {
      map id | id in records :: records[id].AsCell()
    }

    constructor (ttl: int)
      ensures Valid() && View() == map[]
      ensures this.ttl == if ttl <= 0 then 86_400_000_000_000 else ttl
    {
      this.ttl := if ttl <= 0 then DEFAULT_TTL else ttl;
      records := map[];
    }

    /** Visits the records in no particular order and drops the expired ones. */
    method EvictExpired(now: int)
      requires Valid()
      modifies this
      ensures Valid() && View() == Evicted(old(View()), now, ttl)
      ensures forall id :: id in records ==> id in old(records) && records[id] == old(records)[id]
    {
      hide IsExpired;
      ghost var before := records;
      var ids := records.Keys;
      while ids != {}
        invariant ids <= records.Keys <= before.Keys
        invariant forall id :: id in records ==> records[id] == before[id]
        invariant forall id :: id in before ==>
                    (id in records <==> id in ids || !IsExpired(before[id].createdAt, now, ttl))
        decreases |ids|
      {
        var id :| id in ids;
        ids := ids - {id};
        if IsExpired(records[id].createdAt, now, ttl) {
          records := records - {id};
        }
      }
    }

    /** The first critical section. `existing` is the record found, which the
        caller of a replay goes on reading after the lock is released. */
    method Begin(id: string, bodyHash: string, now: int)
      returns (decision: Decision, existing: IdempotencyRecord?)
      requires Valid()
      modifies this
      ensures Valid() && (View(), decision) == BeginView(old(View()), ttl, id, bodyHash, now)
      ensures var before := old(View());
              var live := id in before && now - before[id].createdAt <= ttl;
              && (decision.Claim? <==> !live)
              && (decision.PayloadConflict? <==> live && before[id].bodyHash != bodyHash)
              && (decision.InProcess? <==> live && before[id].bodyHash == bodyHash && before[id].inFlight)
              && (decision.Claim? ==> View()[id] == Cell(bodyHash, true, Response(0, "", ""), now))
      ensures existing == if decision.Claim? then null else old(records)[id]
      ensures decision.Replay? ==> existing.AsCell() == old(View())[id]
      ensures decision.Claim? ==> id in records && fresh(records[id])
      ensures forall i :: i in records && i != id ==> i in old(records) && records[i] == old(records)[i]
    {
      EvictExpired(now);
      ghost var live := View();
      if id in records {
        existing := records[id];
        if existing.bodyHash != bodyHash {
          decision := PayloadConflict;
        } else if existing.inFlight {
          decision := InProcess;
        } else {
          decision := Replay;
        }
      } else {
        var record := new IdempotencyRecord(bodyHash, now);
        records := records[id := record];
        decision, existing := Claim, null;
        assert View() == live[id := Claimed(bodyHash, now)];
      }
    }

    /** The second critical section. It writes to whatever record the id leads
        to now, whoever created it. */
    method Complete(id: string, recorded: Response, presetStatus: int)
      requires Valid()
      modifies this, records.Values
      ensures Valid() && View() == CompleteView(old(View()), id, Answered(recorded, presetStatus))
      ensures var status := if recorded.status != 0 then recorded.status else presetStatus;
              var before := old(View());
              View() == if id !in before then before
                        else if 200 <= status < 400 then
                          before[id := Cell(before[id].bodyHash, false,
                                            Response(status, recorded.body, recorded.contentType),
                                            before[id].createdAt)]
                        else before - {id}
      ensures forall i :: i in records ==> i in old(records) && records[i] == old(records)[i]
    {
      if id in records {
        var record := records[id];
        var statusCode := recorded.status;
        if statusCode == 0 {
          statusCode := presetStatus;
        }
        if 200 <= statusCode < 400 {
          record.statusCode, record.response := statusCode, recorded.body;
          record.contentType := recorded.contentType;
          record.inFlight := false;
        } else {
          records := records - {id};
        }
      }
    }
  }
}
