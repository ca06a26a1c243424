/** The limiter's guarantees per address: requests come from addresses, the table
    is kept by client key, and only a missing address shares a key, with the
    address that spells that key. */
module LimiterAddresses {
  import opened RateLimiter

  /** One budget serves both addresses. */
  predicate SameSource(p: string, q: string) {
    p == q || (p == "" && q == "unknown") || (p == "unknown" && q == "")
  }

  lemma ClientKeyIff(p: string, q: string)
    ensures ClientKey(p) == ClientKey(q) <==> p == q || {p, q} == {"", "unknown"}
    ensures ClientKey(p) == ClientKey(q) <==> SameSource(p, q)
  {
    assert p == q ==> {p, q} == {p};
    assert {p, q} == {"", "unknown"} ==>
      p in {"", "unknown"} && q in {"", "unknown"} && "" in {p, q} && "unknown" in {p, q};
    assert SameSource(p, q) && p != q ==> {p, q} == {"", "unknown"};
  }

  /** A request of one source leaves the entry of another as it was or, two
      windows after it was last seen, forgets it. */
  lemma OthersAreUntouched(p: Policy, table: map<string, Seen>, ip: string, other: string, now: int, at: int)
    requires p.IsLimiting() && !SameSource(ip, other)
    ensures var (key, after) := (ClientKey(other), Step(p, table, ClientKey(ip), now, at).1);
            && (key in after <==> key in table && now - table[key].lastSeen <= 2 * p.window)
            && (key in after ==> after[key] == table[key])
  {
    ClientKeyIff(ip, other);
    hide ClientKey, SameSource, Take, BucketOf;
  }

  // ----- Runs of requests from addresses -----

  datatype Visit = Visit(ip: string, now: int, at: int)

  /** The table a run of requests leaves. */
  function TableAfter(p: Policy, visits: seq<Visit>): map<string, Seen>
    requires p.IsLimiting()
  {
    if visits == [] then map[]
    else
      var v := visits[|visits| - 1];
      Step(p, TableAfter(p, visits[..|visits| - 1]), ClientKey(v.ip), v.now, v.at).1
  }

  /** The decision on the last request of a run. */
  predicate Admits(p: Policy, visits: seq<Visit>)
    requires p.IsLimiting() && visits != []
  {
    var v := visits[|visits| - 1];
    Step(p, TableAfter(p, visits[..|visits| - 1]), ClientKey(v.ip), v.now, v.at).0
  }

  /** The bucket of an address in a limiter that keeps one for every source and
      never forgets any. */
  function RememberedFor(p: Policy, visits: seq<Visit>, ip: string): Bucket
    requires p.IsLimiting()
  {
    if visits == [] then Bucket(p.maxRequests as real, 0)
    else
      var v := visits[|visits| - 1];
      var before := RememberedFor(p, visits[..|visits| - 1], ip);
      if SameSource(v.ip, ip) then Take(p, before, v.at).1 else before
  }

  predicate RememberingAdmits(p: Policy, visits: seq<Visit>)
    requires p.IsLimiting() && visits != []
  {
    var v := visits[|visits| - 1];
    Take(p, RememberedFor(p, visits[..|visits| - 1], v.ip), v.at).0
  }

  /** The requests of an address let through from request `lo` on. */
  function AdmissionsFor(p: Policy, visits: seq<Visit>, lo: nat, ip: string): nat
    requires p.IsLimiting()
  {
    if |visits| <= lo then 0
    else
      AdmissionsFor(p, visits[..|visits| - 1], lo, ip) +
      if SameSource(visits[|visits| - 1].ip, ip) && Admits(p, visits) then 1 else 0
  }

  ghost predicate TimelyVisits(visits: seq<Visit>, wait: int) {
    && (forall i :: 0 <= i < |visits| ==> visits[i].now <= visits[i].at <= visits[i].now + wait)
    && (forall i, j :: 0 <= i < j < |visits| ==> visits[i].at <= visits[j].at)
  }

  // ----- They are runs of their client keys -----

  function Keyed(visits: seq<Visit>): (arrivals: seq<Arrival>)
    ensures |arrivals| == |visits|
    ensures forall i :: 0 <= i < |visits| ==>
              arrivals[i] == Arrival(ClientKey(visits[i].ip), visits[i].now, visits[i].at)
  {
    seq(|visits|, i requires 0 <= i < |visits| => Arrival(ClientKey(visits[i].ip), visits[i].now, visits[i].at))
  }

  lemma KeyedFront(visits: seq<Visit>)
    requires visits != []
    ensures Keyed(visits)[..|visits| - 1] == Keyed(visits[..|visits| - 1])
  {
  }

  lemma {:induction false} TableAfterKeyed(p: Policy, visits: seq<Visit>)
    requires p.IsLimiting()
    ensures TableAfter(p, visits) == After(p, Keyed(visits))
  {
    hide Step, ClientKey;
    if visits != [] {
      TableAfterKeyed(p, visits[..|visits| - 1]);
      KeyedFront(visits);
    }
  }

  lemma AdmitsKeyed(p: Policy, visits: seq<Visit>)
    requires p.IsLimiting() && visits != []
    ensures Admits(p, visits) == Allows(p, Keyed(visits))
  {
    hide Step, ClientKey, TableAfter, After;
    TableAfterKeyed(p, visits[..|visits| - 1]);
    KeyedFront(visits);
  }

  lemma {:induction false} RememberedForKeyed(p: Policy, visits: seq<Visit>, ip: string)
    requires p.IsLimiting()
    ensures RememberedFor(p, visits, ip) == Remembered(p, Keyed(visits), ClientKey(ip))
  {
    hide Take, ClientKey, SameSource;
    if visits != [] {
      RememberedForKeyed(p, visits[..|visits| - 1], ip);
      KeyedFront(visits);
      ClientKeyIff(visits[|visits| - 1].ip, ip);
    }
  }

  lemma RememberingAdmitsKeyed(p: Policy, visits: seq<Visit>)
    requires p.IsLimiting() && visits != []
    ensures RememberingAdmits(p, visits) == RememberingAllows(p, Keyed(visits))
  {
    hide Take, ClientKey, RememberedFor, Remembered;
    RememberedForKeyed(p, visits[..|visits| - 1], visits[|visits| - 1].ip);
    KeyedFront(visits);
  }

  lemma {:induction false} AdmissionsForKeyed(p: Policy, visits: seq<Visit>, lo: nat, ip: string)
    requires p.IsLimiting()
    ensures AdmissionsFor(p, visits, lo, ip) == Admissions(p, Keyed(visits), lo, ClientKey(ip))
    decreases |visits|
  {
    hide ClientKey, SameSource, Admits, Allows;
    if |visits| > lo {
      AdmissionsForKeyed(p, visits[..|visits| - 1], lo, ip);
      KeyedFront(visits);
      AdmitsKeyed(p, visits);
      ClientKeyIff(visits[|visits| - 1].ip, ip);
    }
  }

  lemma TimelyKeyed(visits: seq<Visit>, wait: int)
    ensures TimelyVisits(visits, wait) <==> Timely(Keyed(visits), wait)
  {
    hide ClientKey;
    var arrivals := Keyed(visits);
    assert forall i :: 0 <= i < |visits| ==> arrivals[i].now == visits[i].now && arrivals[i].at == visits[i].at;
  }

  /** A run of clients none of which is missing its address. */
  lemma FromClients(arrivals: seq<Arrival>) returns (visits: seq<Visit>)
    requires forall i :: 0 <= i < |arrivals| ==> arrivals[i].client != ""
    ensures |visits| == |arrivals| && Keyed(visits) == arrivals
  {
    visits := seq(|arrivals|, i requires 0 <= i < |arrivals| =>
                    Visit(arrivals[i].client, arrivals[i].now, arrivals[i].at));
    assert forall i :: 0 <= i < |arrivals| ==> ClientKey(visits[i].ip) == arrivals[i].client;
  }

  lemma DrainingVisits(p: Policy, wait: int) returns (visits: seq<Visit>)
    requires p.IsLimiting() && p.Interval() > 0 && wait > WaitBound(p)
    ensures visits != [] && TimelyVisits(visits, wait) && Admits(p, visits) && !RememberingAdmits(p, visits)
    ensures !BudgetKept(p, Keyed(visits), 0, ClientKey("a"))
  {
    var run := DrainedTwice(p, p.maxRequests);
    assert run != [] && forall i :: 0 <= i < |run| ==> run[i].client != "";
    assert ClientKey("a") == "a";
    DrainedTwiceIsTimely(p, wait);
    hide DrainedTwice, WaitBound, Admits, RememberingAdmits, BudgetKept, Timely, TimelyVisits, ClientKey;
    DrainedTwiceShows(p);
    DrainedTwiceOverspends(p);
    visits := FromClients(run);
    TimelyKeyed(visits, wait);
    AdmitsKeyed(p, visits);
    RememberingAdmitsKeyed(p, visits);
  }

  // ----- What holds for addresses -----

  /** The decision on every request, of any address, is the one of the limiter
      that keeps a bucket for every source and never forgets, exactly when the
      interval is zero or no wait for the lock exceeds the bound. */
  lemma DecisionsAgreeIff(p: Policy, wait: int)
    requires p.maxRequests > 0 && p.window > 0
    ensures (forall visits :: visits != [] && TimelyVisits(visits, wait) ==>
               (Admits(p, visits) <==> RememberingAdmits(p, visits))) <==>
            p.window < p.maxRequests || wait <= 2 * p.window + 1 - p.window / p.maxRequests * p.maxRequests
  {
    assert p.Interval() == 0 <==> p.window < p.maxRequests;
    assert WaitBound(p) == 2 * p.window + 1 - p.window / p.maxRequests * p.maxRequests;
    hide Admits, RememberingAdmits, TimelyVisits, WaitBound;
    if p.Interval() == 0 || wait <= WaitBound(p) {
      forall visits | visits != [] && TimelyVisits(visits, wait)
        ensures Admits(p, visits) <==> RememberingAdmits(p, visits)
      {
        TimelyKeyed(visits, wait);
        DecisionsAgree(p, Keyed(visits), wait);
        AdmitsKeyed(p, visits);
        RememberingAdmitsKeyed(p, visits);
      }
    } else {
      var visits := DrainingVisits(p, wait);
    }
  }

  /** From request `lo` on the address got at most its budget and one more request
      for every interval in between. */
  predicate WithinBudget(p: Policy, visits: seq<Visit>, lo: nat, ip: string)
    requires p.maxRequests > 0 && p.window >= p.maxRequests && lo < |visits|
  {
    AdmissionsFor(p, visits, lo, ip) as real
    <= p.maxRequests as real + (visits[|visits| - 1].at - visits[lo].at) as real / (p.window / p.maxRequests) as real
  }

  lemma WholeInterval(p: Policy)
    requires p.maxRequests > 0 && p.window >= p.maxRequests
    ensures p.window / p.maxRequests == p.Interval() > 0
  {
  }

  lemma RefillSpelledOut(p: Policy, elapsed: int)
    requires p.maxRequests > 0 && p.window >= p.maxRequests
    ensures p.Interval() > 0 && Refill(p, elapsed) == elapsed as real / (p.window / p.maxRequests) as real
  {
    WholeInterval(p);
  }

  lemma BudgetSpelledOut(p: Policy, visits: seq<Visit>, lo: nat, ip: string)
    requires p.maxRequests > 0 && p.window >= p.maxRequests && lo < |visits|
    ensures p.Interval() > 0
    ensures BudgetKept(p, Keyed(visits), lo, ClientKey(ip)) <==> WithinBudget(p, visits, lo, ip)
  {
    hide AdmissionsFor, Admissions, ClientKey, Policy.Interval, Refill;
    RefillSpelledOut(p, visits[|visits| - 1].at - visits[lo].at);
    AdmissionsForKeyed(p, visits, lo, ip);
  }

  /** Every span of every run stays within the budget exactly when no wait for the
      lock exceeds the bound. */
  lemma BudgetKeptIff(p: Policy, wait: int)
    requires p.maxRequests > 0 && p.window >= p.maxRequests
    ensures (forall visits: seq<Visit>, lo: nat, ip :: TimelyVisits(visits, wait) && lo < |visits| ==>
               WithinBudget(p, visits, lo, ip)) <==>
            wait <= 2 * p.window + 1 - p.window / p.maxRequests * p.maxRequests
  {
    assert WaitBound(p) == 2 * p.window + 1 - p.window / p.maxRequests * p.maxRequests;
    WholeInterval(p);
    hide WithinBudget, TimelyVisits, WaitBound, BudgetKept;
    if wait <= WaitBound(p) {
      forall visits: seq<Visit>, lo: nat, ip | TimelyVisits(visits, wait) && lo < |visits|
        ensures WithinBudget(p, visits, lo, ip)
      {
        TimelyKeyed(visits, wait);
        BudgetSpelledOut(p, visits, lo, ip);
        AdmissionsBounded(p, Keyed(visits), wait, lo, ClientKey(ip));
      }
    } else {
      var visits := DrainingVisits(p, wait);
      BudgetSpelledOut(p, visits, 0, "a");
    }
  }
}
