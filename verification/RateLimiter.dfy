/** The per-client request limiter: token buckets in a table that forgets the
    clients it has not seen for two windows. */
module RateLimiter {

  // ----- Token buckets -----

  /** The budget: at most maxRequests at once, refilled one per interval. */
  datatype Policy = Policy(maxRequests: int, window: int) {
    predicate IsLimiting() {
      maxRequests > 0 && window > 0
    }

    /** Whole nanoseconds; zero lifts the limit. */
    function Interval(): (i: int)
      requires IsLimiting()
      ensures 0 <= i
      ensures i * maxRequests <= window
    {
      window / maxRequests
    }
  }

  datatype Bucket = Bucket(tokens: real, last: int)

  /** A new bucket, full from the zero time on. */
  function Full(p: Policy): Bucket {
    Bucket(p.maxRequests as real, 0)
  }

  /** The tokens that flow in during `elapsed`. */
  function Refill(p: Policy, elapsed: int): real
    requires p.IsLimiting() && p.Interval() > 0
  {
    elapsed as real / p.Interval() as real
  }

  function Available(p: Policy, b: Bucket, at: int): real
    requires p.IsLimiting() && p.Interval() > 0
  {
    var tokens := b.tokens + if at > b.last then Refill(p, at - b.last) else 0.0;
    if tokens > p.maxRequests as real then p.maxRequests as real else tokens
  }

  /** One request at the bucket: whether it may pass, and the bucket it leaves. */
  function Take(p: Policy, b: Bucket, at: int): (bool, Bucket)
    requires p.IsLimiting()
  {
    if p.Interval() == 0 then (true, b)
    else if Available(p, b, at) >= 1.0 then (true, Bucket(Available(p, b, at) - 1.0, at))
    else (false, b)
  }

  // ----- The table, by value -----

  datatype Seen = Seen(bucket: Bucket, lastSeen: int)

  function ClientKey(ip: string): string {
    if ip == "" then "unknown" else ip
  }

  predicate IsForgotten(p: Policy, lastSeen: int, now: int) {
    now - lastSeen > 2 * p.window
  }

  function Swept(p: Policy, table: map<string, Seen>, now: int): map<string, Seen> {
    map client | client in table && !IsForgotten(p, table[client].lastSeen, now) :: table[client]
  }

  function BucketOf(p: Policy, table: map<string, Seen>, client: string): Bucket {
    if client in table then table[client].bucket else Full(p)
  }

  /** One request: the clock was read at `now` before the lock was taken, and
      the bucket is asked at `at`, under the lock. */
  function Step(p: Policy, table: map<string, Seen>, client: string, now: int, at: int): (bool, map<string, Seen>)
    requires p.IsLimiting()
  {
    var (allowed, bucket) := Take(p, BucketOf(p, table, client), at);
    var touched := table[client := Seen(BucketOf(p, table, client), now)];
    (allowed, Swept(p, touched, now)[client := Seen(bucket, now)])
  }

  // ----- The table, in place -----

  class Entry {
    var bucket: Bucket
    var lastSeen: int

    constructor (bucket: Bucket, lastSeen: int)
      ensures AsSeen() == Seen(bucket, lastSeen)
    {
      this.bucket, this.lastSeen := bucket, lastSeen;
    }

    function AsSeen(): Seen
      reads this
    {
      Seen(bucket, lastSeen)
    }

    method Allow(p: Policy, at: int) returns (allowed: bool)
      requires p.IsLimiting()
      modifies this
      ensures (allowed, bucket) == Take(p, old(bucket), at)
      ensures p.Interval() > 0 ==> (allowed <==> Available(p, old(bucket), at) >= 1.0)
      ensures !allowed ==> bucket == old(bucket)
      ensures lastSeen == old(lastSeen)
    {
      if p.Interval() == 0 {
        return true;
      }
      var tokens := Available(p, bucket, at);
      allowed := tokens >= 1.0;
      if allowed {
        bucket := Bucket(tokens - 1.0, at);
      }
    }
  }

  class Limiter {
    const policy: Policy
    var entries: map<string, Entry>

    /** No entry is filed under two clients. */
    ghost predicate Valid()
      reads this
    {
      forall c, d :: c in entries && d in entries && c != d ==> entries[c] != entries[d]
    }

    ghost function View(): map<string, Seen>
      reads this, entries.Values
    {
      map client | client in entries :: entries[client].AsSeen()
    }

    constructor (maxRequests: int, window: int)
      ensures Valid() && View() == map[] && policy == Policy(maxRequests, window)
    {
      policy := Policy(maxRequests, window);
      entries := map[];
    }

    /** Visits the entries in no particular order and drops the forgotten ones. */
    method Sweep(now: int)
      requires Valid()
      modifies this
      ensures Valid() && View() == Swept(policy, old(View()), now)
      ensures forall client :: client in entries ==>
                client in old(entries) && entries[client] == old(entries)[client]
    {
      hide IsForgotten;
      ghost var before := entries;
      var clients := entries.Keys;
      while clients != {}
        invariant clients <= entries.Keys <= before.Keys
        invariant forall client :: client in entries ==> entries[client] == before[client]
        invariant forall client :: client in before ==>
                    (client in entries <==> client in clients || !IsForgotten(policy, before[client].lastSeen, now))
        decreases |clients|
      {
        var client :| client in clients;
        clients := clients - {client};
        if IsForgotten(policy, entries[client].lastSeen, now) {
          entries := entries - {client};
        }
      }
    }

    /** The entry of the client, created with a full bucket when there is none,
        and marked as seen now. */
    method Touch(client: string, now: int) returns (entry: Entry)
      requires Valid()
      modifies this, entries.Values
      ensures Valid() && client in entries && entries[client] == entry
      ensures View() == old(View())[client := Seen(BucketOf(policy, old(View()), client), now)]
      ensures forall c :: c in entries && c != client ==> c in old(entries) && entries[c] == old(entries)[c]
      ensures client in old(entries) ==> entry == old(entries)[client]
      ensures client !in old(entries) ==> fresh(entry)
    {
      if client in entries {
        entry := entries[client];
      } else {
        entry := new Entry(Full(policy), now);
        entries := entries[client := entry];
      }
      entry.lastSeen := now;
    }

    /** Asks the bucket of an entry of the table. */
    method AllowEntry(client: string, entry: Entry, at: int) returns (allowed: bool)
      requires policy.IsLimiting() && Valid() && client in entries && entries[client] == entry
      modifies entry
      ensures Valid()
      ensures var seen := old(View())[client];
              var (pass, bucket) := Take(policy, seen.bucket, at);
              allowed == pass && View() == old(View())[client := Seen(bucket, seen.lastSeen)]
    {
      hide Take;
      allowed := entry.Allow(policy, at);
    }

    /** Requests pass unlimited when the configured budget is not positive. */
    method Admit(ip: string, now: int, at: int) returns (allowed: bool)
      requires Valid()
      modifies this, entries.Values
      ensures Valid()
      ensures policy.maxRequests <= 0 || policy.window <= 0 ==> allowed && View() == old(View())
      ensures policy.maxRequests > 0 && policy.window > 0 ==>
                (allowed, View()) == Step(policy, old(View()), ClientKey(ip), now, at)
    {
      if !policy.IsLimiting() {
        return true;
      }
      var client := ip;
      if client == "" {
        client := "unknown";
      }
      var entry := Touch(client, now);
      JustSeenIsKept(policy, View(), client, now);
      hide Take, Full, IsForgotten, Valid, Swept;
      Sweep(now);
      assert client in View();
      allowed := AllowEntry(client, entry, at);
    }
  }

  lemma JustSeenIsKept(p: Policy, table: map<string, Seen>, client: string, now: int)
    requires p.IsLimiting() && client in table && table[client].lastSeen == now
    ensures client in Swept(p, table, now) && Swept(p, table, now)[client] == table[client]
  {
  }

  // ----- Runs, and the limiter that never forgets -----

  datatype Arrival = Arrival(client: string, now: int, at: int)

  function After(p: Policy, arrivals: seq<Arrival>): map<string, Seen>
    requires p.IsLimiting()
  {
    if arrivals == [] then map[]
    else
      var a := arrivals[|arrivals| - 1];
      Step(p, After(p, arrivals[..|arrivals| - 1]), a.client, a.now, a.at).1
  }

  /** The limiter's decision on the last arrival of a run. */
  predicate Allows(p: Policy, arrivals: seq<Arrival>)
    requires p.IsLimiting() && arrivals != []
  {
    var a := arrivals[|arrivals| - 1];
    Step(p, After(p, arrivals[..|arrivals| - 1]), a.client, a.now, a.at).0
  }

  /** One bucket of the limiter that never forgets a client. */
  function Remembered(p: Policy, arrivals: seq<Arrival>, client: string): Bucket
    requires p.IsLimiting()
  {
    if arrivals == [] then Full(p)
    else
      var a := arrivals[|arrivals| - 1];
      var before := Remembered(p, arrivals[..|arrivals| - 1], client);
      if a.client == client then Take(p, before, a.at).1 else before
  }

  predicate RememberingAllows(p: Policy, arrivals: seq<Arrival>)
    requires p.IsLimiting() && arrivals != []
  {
    var a := arrivals[|arrivals| - 1];
    Take(p, Remembered(p, arrivals[..|arrivals| - 1], a.client), a.at).0
  }

  /** The lock orders the bucket readings, and nobody waits for it longer than `wait`. */
  ghost predicate Timely(arrivals: seq<Arrival>, wait: int) {
    && (forall i :: 0 <= i < |arrivals| ==> arrivals[i].now <= arrivals[i].at <= arrivals[i].now + wait)
    && (forall i, j :: 0 <= i < j < |arrivals| ==> arrivals[i].at <= arrivals[j].at)
  }

  /** Forgetting never changes a decision. */
  ghost predicate Unobservable(p: Policy, wait: int)
    requires p.IsLimiting()
  {
    forall arrivals: seq<Arrival> :: arrivals != [] && Timely(arrivals, wait) ==>
      (Allows(p, arrivals) <==> RememberingAllows(p, arrivals))
  }

  // ----- A forgotten bucket would have been full -----

  predicate IsFullAt(p: Policy, b: Bucket, at: int)
    requires p.IsLimiting()
  {
    p.Interval() > 0 && Available(p, b, at) == p.maxRequests as real
  }

  lemma QuotientFacts(i: real, m: real, a: real, b: real)
    requires i > 0.0
    ensures a / i + b / i == (a + b) / i
    ensures a >= 0.0 ==> a / i >= 0.0
    ensures a >= i * m ==> a / i >= m
  {
    var x, y, z := a / i, b / i, (a + b) / i;
    assert x * i == a && y * i == b && z * i == a + b;
    assert (x + y - z) * i == 0.0;
    assert x < 0.0 ==> x * i < 0.0;
    assert x < m ==> (m - x) * i > 0.0;
  }

  lemma RefillFacts(p: Policy, a: int, b: int)
    requires p.IsLimiting() && p.Interval() > 0
    ensures Refill(p, a) + Refill(p, b) == Refill(p, a + b)
    ensures a >= 0 ==> Refill(p, a) >= 0.0
    ensures a >= p.Interval() * p.maxRequests ==> Refill(p, a) >= p.maxRequests as real
  {
    var i, m := p.Interval(), p.maxRequests;
    QuotientFacts(i as real, m as real, a as real, b as real);
    assert (i * m) as real == i as real * m as real;
  }

  lemma FullStaysFull(p: Policy, b: Bucket, at: int, later: int)
    requires p.IsLimiting() && IsFullAt(p, b, at) && at <= later
    ensures IsFullAt(p, b, later)
  {
    if at > b.last {
      RefillFacts(p, at - b.last, later - at);
      RefillFacts(p, later - at, 0);
    } else if later > b.last {
      RefillFacts(p, later - b.last, 0);
    }
  }

  lemma NewIsFull(p: Policy, at: int)
    requires p.IsLimiting() && p.Interval() > 0
    ensures IsFullAt(p, Full(p), at)
  {
    if at > 0 { RefillFacts(p, at, 0); }
  }

  lemma IdleIsFull(p: Policy, b: Bucket, at: int)
    requires p.IsLimiting() && p.Interval() > 0
    requires b.tokens >= 0.0 && at - b.last >= p.Interval() * p.maxRequests
    ensures IsFullAt(p, b, at)
  {
    RefillFacts(p, at - b.last, 0);
    assert p.Interval() * p.maxRequests > 0;
  }

  // ----- Forgetting is unobservable, exactly up to a bound on the wait -----

  /** The longest wait for the lock that keeps a forgotten client's bucket full. */
  function WaitBound(p: Policy): int
    requires p.IsLimiting()
  {
    2 * p.window + 1 - p.Interval() * p.maxRequests
  }

  /** How the limiter that forgets relates to the one that does not, at lock time `t`. */
  ghost predicate Tracks(p: Policy, table: map<string, Seen>, b: Bucket, wait: int, client: string, t: int)
    requires p.IsLimiting()
  {
    && b.tokens >= 0.0
    && if client in table then table[client].bucket == b && b.last <= t && b.last <= table[client].lastSeen + wait
       else IsFullAt(p, b, t)
  }

  /** A full bucket lets the request pass, whatever it is made of. */
  lemma SameTake(p: Policy, table: map<string, Seen>, b: Bucket, wait: int, client: string, t: int, at: int)
    requires p.IsLimiting() && p.Interval() > 0
    requires Tracks(p, table, b, wait, client, t) && t <= at
    ensures var (allowed, bucket) := Take(p, b, at);
            && Take(p, BucketOf(p, table, client), at) == (allowed, bucket)
            && bucket.tokens >= 0.0
            && (bucket == b || bucket.last == at)
            && (client !in table ==> bucket.last == at)
  {
    hide Refill;
    if client !in table {
      FullStaysFull(p, b, t, at);
      NewIsFull(p, at);
      hide Available, Full;
    }
  }

  lemma TrackAsker(p: Policy, table: map<string, Seen>, b: Bucket, wait: int, t: int, a: Arrival)
    requires p.IsLimiting() && p.Interval() > 0
    requires Tracks(p, table, b, wait, a.client, t)
    requires t <= a.at <= a.now + wait
    ensures var (allowed, bucket) := Take(p, b, a.at);
            var (passed, after) := Step(p, table, a.client, a.now, a.at);
            passed == allowed && Tracks(p, after, bucket, wait, a.client, a.at)
  {
    SameTake(p, table, b, wait, a.client, t, a.at);
    hide Take, BucketOf;
  }

  lemma TrackOther(p: Policy, table: map<string, Seen>, b: Bucket, wait: int, client: string, t: int, a: Arrival)
    requires p.IsLimiting() && p.Interval() > 0 && wait <= WaitBound(p)
    requires Tracks(p, table, b, wait, client, t) && client != a.client
    requires t <= a.at && a.now <= a.at
    ensures Tracks(p, Step(p, table, a.client, a.now, a.at).1, b, wait, client, a.at)
  {
    hide Take, BucketOf, Available;
    var after := Step(p, table, a.client, a.now, a.at).1;
    if client !in table {
      FullStaysFull(p, b, t, a.at);
    } else if client !in after {
      IdleIsFull(p, b, a.at);
    }
  }

  lemma TracksLater(p: Policy, table: map<string, Seen>, b: Bucket, wait: int, client: string, t: int, later: int)
    requires p.IsLimiting() && p.Interval() > 0
    requires Tracks(p, table, b, wait, client, t) && t <= later
    ensures Tracks(p, table, b, wait, client, later)
  {
    hide Available;
    if client !in table { FullStaysFull(p, b, t, later); }
  }

  lemma {:induction false} RunTracks(p: Policy, arrivals: seq<Arrival>, wait: int, client: string, t: int)
    requires p.IsLimiting() && p.Interval() > 0 && wait <= WaitBound(p) && Timely(arrivals, wait)
    requires forall i :: 0 <= i < |arrivals| ==> arrivals[i].at <= t
    ensures Tracks(p, After(p, arrivals), Remembered(p, arrivals, client), wait, client, t)
  {
    if arrivals == [] {
      NewIsFull(p, t);
    } else {
      var a, front := arrivals[|arrivals| - 1], arrivals[..|arrivals| - 1];
      RunTracks(p, front, wait, client, a.at);
      var table, b := After(p, front), Remembered(p, front, client);
      var after := Step(p, table, a.client, a.now, a.at).1;
      assert After(p, arrivals) == after;
      assert a.now <= a.at <= a.now + wait;
      assert Remembered(p, arrivals, client) == if a.client == client then Take(p, b, a.at).1 else b;
      hide Timely, After, Remembered, Tracks, Step, Take, WaitBound;
      if a.client == client {
        TrackAsker(p, table, b, wait, a.at, a);
      } else {
        TrackOther(p, table, b, wait, client, a.at, a);
      }
      TracksLater(p, after, Remembered(p, arrivals, client), wait, client, a.at, t);
    }
  }

  /** Within the bound every decision is the one of the limiter that never forgets. */
  lemma DecisionsAgree(p: Policy, arrivals: seq<Arrival>, wait: int)
    requires p.IsLimiting() && arrivals != [] && Timely(arrivals, wait)
    requires p.Interval() == 0 || wait <= WaitBound(p)
    ensures Allows(p, arrivals) <==> RememberingAllows(p, arrivals)
  {
    var a, front := arrivals[|arrivals| - 1], arrivals[..|arrivals| - 1];
    if p.Interval() > 0 {
      hide WaitBound, Take, BucketOf;
      RunTracks(p, front, wait, a.client, a.at);
      SameTake(p, After(p, front), Remembered(p, front, a.client), wait, a.client, a.at, a.at);
    }
  }

  // ----- Past the bound it shows -----

  /** A bucket asked `n` times at one instant. */
  function TakenTimes(p: Policy, b: Bucket, at: int, n: nat): Bucket
    requires p.IsLimiting()
  {
    if n == 0 then b else Take(p, TakenTimes(p, b, at, n - 1), at).1
  }

  /** It lets pass as many as it has tokens. */
  lemma {:induction false} TakenTimesDrains(p: Policy, b: Bucket, at: int, n: nat)
    requires p.IsLimiting() && p.Interval() > 0 && n as real <= Available(p, b, at)
    ensures n > 0 ==> TakenTimes(p, b, at, n) == Bucket(Available(p, b, at) - n as real, at)
    ensures Available(p, TakenTimes(p, b, at, n), at) == Available(p, b, at) - n as real
  {
    if n > 0 { TakenTimesDrains(p, b, at, n - 1); }
  }

  function Repeat(a: Arrival, n: nat): (r: seq<Arrival>)
    ensures |r| == n && forall i :: 0 <= i < n ==> r[i] == a
  {
    seq(n, _ => a)
  }

  lemma {:induction false} RepeatedArrivals(p: Policy, pre: seq<Arrival>, a: Arrival, n: nat)
    requires p.IsLimiting()
    ensures Remembered(p, pre + Repeat(a, n), a.client) == TakenTimes(p, Remembered(p, pre, a.client), a.at, n)
    ensures BucketOf(p, After(p, pre + Repeat(a, n)), a.client) ==
            TakenTimes(p, BucketOf(p, After(p, pre), a.client), a.at, n)
    ensures n > 0 ==> After(p, pre + Repeat(a, n)).Keys >= {a.client}
    ensures n > 0 ==> After(p, pre + Repeat(a, n))[a.client].lastSeen == a.now
  {
    hide Take, Swept;
    var run := pre + Repeat(a, n);
    if n == 0 {
      assert run == pre;
    } else {
      RepeatedArrivals(p, pre, a, n - 1);
      assert run[..|run| - 1] == pre + Repeat(a, n - 1);
    }
  }

  /** One nanosecond short of a full refill. */
  lemma AlmostRefilled(p: Policy, last: int, at: int)
    requires p.IsLimiting() && p.Interval() > 0 && at - last == p.Interval() * p.maxRequests - 1
    ensures p.maxRequests as real - 1.0 <= Available(p, Bucket(0.0, last), at) < p.maxRequests as real
  {
    var i, m := p.Interval(), p.maxRequests;
    assert i * m >= 1 && (i * m - 1) as real == i as real * m as real - 1.0;
    assert (at - last) as real / i as real * i as real == i as real * m as real - 1.0;
    assert (at - last) as real / i as real == m as real - 1.0 / i as real;
  }

  /** A client that used up its budget after waiting too long for the lock is
      forgotten just before its bucket is full again. */
  ghost function DrainedThenForgotten(p: Policy): seq<Arrival>
    requires p.IsLimiting()
  {
    Repeat(Arrival("a", 0, WaitBound(p) + 1), p.maxRequests)
    + [Arrival("b", 2 * p.window + 1, 2 * p.window + 1)]
  }

  lemma ForgottenTooEarly(p: Policy)
    requires p.IsLimiting() && p.Interval() > 0
    ensures "a" !in After(p, DrainedThenForgotten(p))
    ensures Remembered(p, DrainedThenForgotten(p), "a") == Bucket(0.0, WaitBound(p) + 1)
  {
    var a, m, late := Arrival("a", 0, WaitBound(p) + 1), p.maxRequests, WaitBound(p) + 1;
    var run, d := DrainedThenForgotten(p), 2 * p.window + 1;
    var drained := run[..|run| - 1];
    assert drained == [] + Repeat(a, m);
    assert run == drained + [Arrival("b", d, d)];
    RepeatedArrivals(p, [], a, m);
    NewIsFull(p, late);
    TakenTimesDrains(p, Full(p), late, m);
    hide TakenTimes, Take, Available, BucketOf;
    assert Remembered(p, run, "a") == Remembered(p, drained, "a");
    assert After(p, run) == Step(p, After(p, drained), "b", d, d).1;
  }

  /** Back again, it gets its whole budget at once. */
  ghost function DrainedTwice(p: Policy, n: nat): seq<Arrival>
    requires p.IsLimiting()
  {
    DrainedThenForgotten(p) + Repeat(Arrival("a", 2 * p.window + 1, 2 * p.window + 1), n)
  }

  lemma DrainedTwiceIsTimely(p: Policy, wait: int)
    requires p.IsLimiting() && p.Interval() > 0 && wait > WaitBound(p)
    ensures Timely(DrainedTwice(p, p.maxRequests), wait)
  {
    var run, d := DrainedTwice(p, p.maxRequests), 2 * p.window + 1;
    assert 0 < WaitBound(p) + 1 <= d;
    hide WaitBound;
    assert forall i :: 0 <= i < |run| ==>
      run[i].at == if i < p.maxRequests then WaitBound(p) + 1 else d;
    assert forall i :: 0 <= i < |run| ==> run[i].now == if i < p.maxRequests then 0 else d;
  }

  /** The last request of a whole budget passes at a new bucket and not at the old one. */
  lemma OldBucketFallsShort(p: Policy)
    requires p.IsLimiting() && p.Interval() > 0
    ensures var (last, at) := (WaitBound(p) + 1, 2 * p.window + 1);
            && Take(p, TakenTimes(p, Full(p), at, p.maxRequests - 1), at).0
            && !Take(p, TakenTimes(p, Bucket(0.0, last), at, p.maxRequests - 1), at).0
  {
    var last, at := WaitBound(p) + 1, 2 * p.window + 1;
    NewIsFull(p, at);
    TakenTimesDrains(p, Full(p), at, p.maxRequests - 1);
    AlmostRefilled(p, last, at);
    TakenTimesDrains(p, Bucket(0.0, last), at, p.maxRequests - 1);
    hide TakenTimes, Available;
  }

  lemma LastDecision(p: Policy, front: seq<Arrival>, a: Arrival)
    requires p.IsLimiting()
    ensures Allows(p, front + [a]) == Take(p, BucketOf(p, After(p, front), a.client), a.at).0
    ensures RememberingAllows(p, front + [a]) == Take(p, Remembered(p, front, a.client), a.at).0
  {
    hide Take, Swept, BucketOf;
    assert (front + [a])[..|front|] == front;
  }

  lemma DrainedTwiceShows(p: Policy)
    requires p.IsLimiting() && p.Interval() > 0
    ensures var run := DrainedTwice(p, p.maxRequests);
            Allows(p, run) && !RememberingAllows(p, run)
  {
    hide WaitBound, TakenTimes, Take, After, Remembered, Allows, RememberingAllows;
    var m, d, pre := p.maxRequests, 2 * p.window + 1, DrainedThenForgotten(p);
    var again := Arrival("a", d, d);
    var front := pre + Repeat(again, m - 1);
    assert DrainedTwice(p, m) == front + [again];
    hide DrainedThenForgotten, DrainedTwice;
    ForgottenTooEarly(p);
    OldBucketFallsShort(p);
    RepeatedArrivals(p, pre, again, m - 1);
    LastDecision(p, front, again);
  }

  /** Forgetting is unobservable exactly when nobody waits for the lock longer
      than two windows less the time a drained bucket takes to refill, which
      includes every wait of up to a window. */
  lemma UnobservableIff(p: Policy, wait: int)
    requires p.IsLimiting()
    ensures Unobservable(p, wait) <==> p.Interval() == 0 || wait <= WaitBound(p)
    ensures WaitBound(p) > p.window
  {
    if p.Interval() == 0 || wait <= WaitBound(p) {
      forall arrivals: seq<Arrival> | arrivals != [] && Timely(arrivals, wait)
        ensures Allows(p, arrivals) <==> RememberingAllows(p, arrivals)
      {
        DecisionsAgree(p, arrivals, wait);
      }
    } else {
      DrainedTwiceIsTimely(p, wait);
      DrainedTwiceShows(p);
    }
  }

  // ----- The budget, across evictions -----

  /** The client's requests let through from arrival `lo` on. */
  function Admissions(p: Policy, arrivals: seq<Arrival>, lo: nat, client: string): nat
    requires p.IsLimiting()
  {
    if |arrivals| <= lo then 0
    else
      Admissions(p, arrivals[..|arrivals| - 1], lo, client) +
      if arrivals[|arrivals| - 1].client == client && Allows(p, arrivals) then 1 else 0
  }

  lemma AvailableLater(p: Policy, b: Bucket, at: int, later: int)
    requires p.IsLimiting() && p.Interval() > 0 && at <= later
    ensures Available(p, b, later) <= Available(p, b, at) + Refill(p, later - at)
  {
    if at > b.last {
      RefillFacts(p, at - b.last, later - at);
    } else if later > b.last {
      RefillFacts(p, later - b.last, b.last - at);
      RefillFacts(p, b.last - at, 0);
    }
    RefillFacts(p, later - at, 0);
  }

  /** A request passes exactly when a whole token is there, and takes exactly
      that; a denied one leaves the bucket as it was. No bucket holds more than
      the budget or less than nothing. */
  lemma TakeSpends(p: Policy, b: Bucket, at: int)
    requires p.IsLimiting() && p.Interval() > 0
    ensures var (allowed, bucket) := Take(p, b, at);
            && (allowed <==> Available(p, b, at) >= 1.0)
            && Available(p, bucket, at) == Available(p, b, at) - (if allowed then 1.0 else 0.0)
            && (!allowed ==> bucket == b)
            && Available(p, b, at) <= p.maxRequests as real
            && (b.tokens >= 0.0 ==> Available(p, bucket, at) >= 0.0 && bucket.tokens >= 0.0)
  {
    if at > b.last { RefillFacts(p, at - b.last, 0); }
  }

  lemma SpendStep(p: Policy, b: Bucket, start: int, before: int, at: int, spent: real, asks: bool)
    requires p.IsLimiting() && p.Interval() > 0 && before <= at
    requires spent + Available(p, b, before) <= p.maxRequests as real + Refill(p, before - start)
    ensures var (allowed, bucket) := Take(p, b, at);
            spent + (if asks && allowed then 1.0 else 0.0) + Available(p, if asks then bucket else b, at)
            <= p.maxRequests as real + Refill(p, at - start)
  {
    TakeSpends(p, b, at);
    AvailableLater(p, b, before, at);
    RefillFacts(p, before - start, at - before);
    hide Take, Available, Refill;
  }

  /** What was let through and what is left never exceed the budget and the refill. */
  lemma {:induction false} Spent(p: Policy, arrivals: seq<Arrival>, wait: int, lo: nat, client: string)
    requires p.IsLimiting() && p.Interval() > 0 && wait <= WaitBound(p) && Timely(arrivals, wait)
    requires lo < |arrivals|
    ensures var last := arrivals[|arrivals| - 1].at;
            Admissions(p, arrivals, lo, client) as real + Available(p, Remembered(p, arrivals, client), last)
            <= p.maxRequests as real + Refill(p, last - arrivals[lo].at)
    decreases |arrivals|
  {
    hide WaitBound, Take, Refill, Available, After, Allows;
    var a, front := arrivals[|arrivals| - 1], arrivals[..|arrivals| - 1];
    var b, start := Remembered(p, front, client), arrivals[lo].at;
    DecisionsAgree(p, arrivals, wait);
    if |front| <= lo {
      TakeSpends(p, b, start);
      RefillFacts(p, 0, 0);
      SpendStep(p, b, start, start, start, 0.0, a.client == client);
      assert Admissions(p, front, lo, client) == 0;
    } else {
      Spent(p, front, wait, lo, client);
      SpendStep(p, b, start, front[|front| - 1].at, a.at, Admissions(p, front, lo, client) as real, a.client == client);
    }
  }

  /** From arrival `lo` on the client was let through no more often than its
      budget and what refills in that span allow. */
  predicate BudgetKept(p: Policy, arrivals: seq<Arrival>, lo: nat, client: string)
    requires p.IsLimiting() && p.Interval() > 0 && lo < |arrivals|
  {
    Admissions(p, arrivals, lo, client) as real
    <= p.maxRequests as real + Refill(p, arrivals[|arrivals| - 1].at - arrivals[lo].at)
  }

  lemma AdmissionsBounded(p: Policy, arrivals: seq<Arrival>, wait: int, lo: nat, client: string)
    requires p.IsLimiting() && p.Interval() > 0 && wait <= WaitBound(p) && Timely(arrivals, wait)
    requires lo < |arrivals|
    ensures BudgetKept(p, arrivals, lo, client)
  {
    var last := arrivals[|arrivals| - 1].at;
    var b := Remembered(p, arrivals, client);
    Spent(p, arrivals, wait, lo, client);
    RunTracks(p, arrivals, wait, client, last);
    if last > b.last { RefillFacts(p, last - b.last, 0); }
    assert Available(p, b, last) >= 0.0;
  }

  lemma {:induction false} RepeatIsAdmitted(p: Policy, pre: seq<Arrival>, a: Arrival, n: nat, lo: nat)
    requires p.IsLimiting() && p.Interval() > 0 && lo <= |pre|
    requires n as real <= Available(p, BucketOf(p, After(p, pre), a.client), a.at)
    ensures Admissions(p, pre + Repeat(a, n), lo, a.client) == Admissions(p, pre, lo, a.client) + n
  {
    var run := pre + Repeat(a, n);
    if n == 0 {
      assert run == pre;
    } else {
      var front, b := pre + Repeat(a, n - 1), BucketOf(p, After(p, pre), a.client);
      RepeatIsAdmitted(p, pre, a, n - 1, lo);
      RepeatedArrivals(p, pre, a, n - 1);
      TakenTimesDrains(p, b, a.at, n - 1);
      TakeSpends(p, TakenTimes(p, b, a.at, n - 1), a.at);
      hide Available, Take, TakenTimes, After, BucketOf, Allows;
      LastDecision(p, front, a);
      assert run == front + [a];
      assert run[..|run| - 1] == front;
    }
  }

  lemma DrainedOnceAdmissions(p: Policy)
    requires p.IsLimiting() && p.Interval() > 0
    ensures Admissions(p, DrainedThenForgotten(p), 0, "a") == p.maxRequests
  {
    var m, run := p.maxRequests, DrainedThenForgotten(p);
    var a := Arrival("a", 0, WaitBound(p) + 1);
    NewIsFull(p, a.at);
    assert BucketOf(p, After(p, []), "a") == Full(p);
    hide Available, Take, After, BucketOf, Allows, WaitBound;
    RepeatIsAdmitted(p, [], a, m, 0);
    assert run[..|run| - 1] == [] + Repeat(a, m);
    assert Admissions(p, [], 0, "a") == 0;
  }

  /** Past the bound the forgotten client spends its budget twice. */
  lemma DrainedTwiceAdmissions(p: Policy)
    requires p.IsLimiting() && p.Interval() > 0
    ensures Admissions(p, DrainedTwice(p, p.maxRequests), 0, "a") == 2 * p.maxRequests
  {
    hide Available, After, Admissions, DrainedThenForgotten, WaitBound, Refill;
    var m, d, pre := p.maxRequests, 2 * p.window + 1, DrainedThenForgotten(p);
    ForgottenTooEarly(p);
    DrainedOnceAdmissions(p);
    NewIsFull(p, d);
    RepeatIsAdmitted(p, pre, Arrival("a", d, d), m, 0);
  }

  lemma AlmostBudget(p: Policy)
    requires p.IsLimiting() && p.Interval() > 0
    ensures Refill(p, p.Interval() * p.maxRequests - 1) < p.maxRequests as real
  {
    AlmostRefilled(p, 0, p.Interval() * p.maxRequests - 1);
    assert p.Interval() * p.maxRequests >= 1;
    RefillFacts(p, p.Interval() * p.maxRequests - 1, 0);
  }

  lemma DrainedTwiceOverspends(p: Policy)
    requires p.IsLimiting() && p.Interval() > 0
    ensures !BudgetKept(p, DrainedTwice(p, p.maxRequests), 0, "a")
  {
    var run := DrainedTwice(p, p.maxRequests);
    DrainedTwiceAdmissions(p);
    AlmostBudget(p);
    assert run[0].at == WaitBound(p) + 1 && run[|run| - 1].at == 2 * p.window + 1;
    assert run[|run| - 1].at - run[0].at == p.Interval() * p.maxRequests - 1;
    hide Refill, Admissions, DrainedTwice, WaitBound;
  }

  /** In every span of every run a client gets no more than its budget and what
      refills in the span, exactly when no wait for the lock exceeds the bound. */
  lemma AdmissionsBoundedIff(p: Policy, wait: int)
    requires p.IsLimiting() && p.Interval() > 0
    ensures (forall arrivals, lo: nat, client ::
               Timely(arrivals, wait) && lo < |arrivals| ==> BudgetKept(p, arrivals, lo, client)) <==>
            wait <= WaitBound(p)
  {
    hide BudgetKept, Timely, WaitBound;
    if wait <= WaitBound(p) {
      forall arrivals, lo: nat, client | Timely(arrivals, wait) && lo < |arrivals|
        ensures BudgetKept(p, arrivals, lo, client)
      {
        AdmissionsBounded(p, arrivals, wait, lo, client);
      }
    } else {
      DrainedTwiceIsTimely(p, wait);
      DrainedTwiceOverspends(p);
      assert |DrainedTwice(p, p.maxRequests)| > 0;
    }
  }
}
