/** The TTL cache of FX quotes, specified against the log of its writes. */
module RateCache {
  import opened Text
  import opened Outcomes
  import opened Quotes

  const DEFAULT_TTL: int := 300_000_000_000

  datatype CacheItem = CacheItem(quote: Quote, expiresAt: int)

  datatype Write = Write(quote: Quote, at: int)

  function Key(settlement: string, presentment: string): string {
    Join(Normalize(settlement), Normalize(presentment))
  }

  function FindAny(items: map<string, CacheItem>, settlement: string, presentment: string): Option<Quote> {
    var key := Key(settlement, presentment);
    if key in items then Some(items[key].quote) else None
  }

  function FindFresh(items: map<string, CacheItem>, settlement: string, presentment: string, now: int): Option<Quote> {
    var key := Key(settlement, presentment);
    if key in items && now <= items[key].expiresAt then Some(items[key].quote) else None
  }

  function Stored(items: map<string, CacheItem>, ttl: int, quote: Quote, now: int): map<string, CacheItem> {
    items[Key(quote.settlement, quote.presentment) := CacheItem(quote, now + ttl)]
  }

  /** What a sequence of writes leaves in the cache. */
  function Contents(ttl: int, log: seq<Write>): map<string, CacheItem> {
    if log == [] then map[]
    else
      var w := log[|log| - 1];
      Stored(Contents(ttl, log[..|log| - 1]), ttl, w.quote, w.at)
  }

  // ----- What the cache is for -----

  predicate IsFor(quote: Quote, settlement: string, presentment: string) {
    Normalize(quote.settlement) == Normalize(settlement) && Normalize(quote.presentment) == Normalize(presentment)
  }

  /** `w` is the last write for the pair, however it was spelled. */
  ghost predicate IsLastWrite(log: seq<Write>, settlement: string, presentment: string, w: Write) {
    exists i | 0 <= i < |log| ::
      && log[i] == w
      && IsFor(w.quote, settlement, presentment)
      && forall j :: i < j < |log| ==> !IsFor(log[j].quote, settlement, presentment)
  }

  /** No other pair of normal forms shares the key. */
  ghost predicate OwnsKey(settlement: string, presentment: string) {
    !SplitsElsewhere(Normalize(settlement), Normalize(presentment))
  }

  /** A lookup serves the last write for the pair, and as fresh only until its
      time to live has passed. */
  ghost predicate ServesLastWrite(ttl: int, log: seq<Write>, settlement: string, presentment: string) {
    var items := Contents(ttl, log);
    && (forall quote :: FindAny(items, settlement, presentment) == Some(quote) <==>
          exists at :: IsLastWrite(log, settlement, presentment, Write(quote, at)))
    && (forall quote, now :: FindFresh(items, settlement, presentment, now) == Some(quote) <==>
          exists at :: IsLastWrite(log, settlement, presentment, Write(quote, at)) && now <= at + ttl)
  }

  // ----- The cache -----

  class MemoryCache {
    const ttl: int
    var items: map<string, CacheItem>
    ghost var log: seq<Write>

    ghost predicate Valid()
      reads this
    {
      ttl > 0 && items == Contents(ttl, log)
    }

    constructor (ttl: int)
      ensures Valid() && log == [] && items == map[]
      ensures this.ttl == if ttl <= 0 then 300_000_000_000 else ttl
    {
      this.ttl := if ttl <= 0 then DEFAULT_TTL else ttl;
      items := map[];
      log := [];
    }

    method Set(quote: Quote, now: int)
      requires Valid()
      modifies this
      ensures Valid()
      ensures log == old(log) + [Write(quote, now)]
      ensures items == Stored(old(items), ttl, quote, now)
    {
      items := items[Key(quote.settlement, quote.presentment) := CacheItem(quote, now + ttl)];
      log := log + [Write(quote, now)];
      assert log[..|log| - 1] == old(log);
    }

    method GetFresh(settlement: string, presentment: string, now: int) returns (r: Option<Quote>)
      requires Valid()
      ensures r == FindFresh(items, settlement, presentment, now)
      ensures OwnsKey(settlement, presentment) ==>
                forall quote :: r == Some(quote) <==>
                  exists at :: IsLastWrite(log, settlement, presentment, Write(quote, at)) && now <= at + ttl
    {
      ghost var owns := OwnsKey(settlement, presentment);
      if owns { OwnedKeyServesLastWrite(ttl, log, settlement, presentment); }
      var key := Key(settlement, presentment);
      if key !in items {
        return None;
      }
      var item := items[key];
      if now > item.expiresAt {
        return None;
      }
      return Some(item.quote);
    }

    method GetAny(settlement: string, presentment: string) returns (r: Option<Quote>)
      requires Valid()
      ensures r == FindAny(items, settlement, presentment)
      ensures OwnsKey(settlement, presentment) ==>
                forall quote :: r == Some(quote) <==>
                  exists at :: IsLastWrite(log, settlement, presentment, Write(quote, at))
    {
      ghost var owns := OwnsKey(settlement, presentment);
      if owns { OwnedKeyServesLastWrite(ttl, log, settlement, presentment); }
      var key := Key(settlement, presentment);
      if key !in items {
        return None;
      }
      return Some(items[key].quote);
    }
  }

  // ----- The cache refines its write log -----

  lemma SameKeyIsSamePair(settlement: string, presentment: string, quote: Quote)
    requires OwnsKey(settlement, presentment)
    ensures Key(quote.settlement, quote.presentment) == Key(settlement, presentment) <==>
            IsFor(quote, settlement, presentment)
  {
    hide IsNormal, Normalize;
    var a, b := Normalize(settlement), Normalize(presentment);
    var c, d := Normalize(quote.settlement), Normalize(quote.presentment);
    NormalizeIsNormal(quote.settlement);
    NormalizeIsNormal(quote.presentment);
    if Join(c, d) == Join(a, b) && (c, d) != (a, b) {
      OtherPairSplits(a, b, c, d);
    }
  }

  /** The item under a key is the last write with that key. */
  lemma {:induction false} ItemIsLastKeyed(ttl: int, log: seq<Write>, key: string) returns (i: int)
    ensures -1 <= i < |log|
    ensures i == -1 <==> key !in Contents(ttl, log)
    ensures i >= 0 ==> Key(log[i].quote.settlement, log[i].quote.presentment) == key
    ensures i >= 0 ==> Contents(ttl, log)[key] == CacheItem(log[i].quote, log[i].at + ttl)
    ensures forall j :: i < j < |log| ==> Key(log[j].quote.settlement, log[j].quote.presentment) != key
  {
    hide Key;
    if log == [] {
      i := -1;
    } else if Key(log[|log| - 1].quote.settlement, log[|log| - 1].quote.presentment) == key {
      i := |log| - 1;
    } else {
      i := ItemIsLastKeyed(ttl, log[..|log| - 1], key);
    }
  }

  lemma LastWriteUnique(log: seq<Write>, settlement: string, presentment: string, v: Write, w: Write)
    requires IsLastWrite(log, settlement, presentment, v) && IsLastWrite(log, settlement, presentment, w)
    ensures v == w
  {
  }

  lemma OwnedKeyServesLastWrite(ttl: int, log: seq<Write>, settlement: string, presentment: string)
    requires OwnsKey(settlement, presentment)
    ensures ServesLastWrite(ttl, log, settlement, presentment)
  {
    forall j | 0 <= j < |log|
      ensures Key(log[j].quote.settlement, log[j].quote.presentment) == Key(settlement, presentment) <==>
              IsFor(log[j].quote, settlement, presentment)
    {
      SameKeyIsSamePair(settlement, presentment, log[j].quote);
    }
    hide Key, IsFor, OwnsKey;
    var i := ItemIsLastKeyed(ttl, log, Key(settlement, presentment));
    if i >= 0 {
      var w := log[i];
      assert w == Write(w.quote, w.at);
      assert IsLastWrite(log, settlement, presentment, w);
      forall v | IsLastWrite(log, settlement, presentment, v) ensures v == w {
        LastWriteUnique(log, settlement, presentment, v, w);
      }
    } else {
      assert forall v :: !IsLastWrite(log, settlement, presentment, v);
    }
  }

  /** Only the pairs whose key no other pair shares are always served correctly. */
  lemma ServesLastWriteIff(ttl: int, settlement: string, presentment: string)
    ensures (forall log :: ServesLastWrite(ttl, log, settlement, presentment)) <==> OwnsKey(settlement, presentment)
  {
    hide ServesLastWrite;
    if OwnsKey(settlement, presentment) {
      forall log ensures ServesLastWrite(ttl, log, settlement, presentment) {
        OwnedKeyServesLastWrite(ttl, log, settlement, presentment);
      }
    } else {
      var log := SharedKeyMisleads(ttl, settlement, presentment);
    }
  }

  lemma SharedKeyMisleads(ttl: int, settlement: string, presentment: string) returns (log: seq<Write>)
    requires !OwnsKey(settlement, presentment)
    ensures !ServesLastWrite(ttl, log, settlement, presentment)
  {
    var c, d := SplitElsewhere(Normalize(settlement), Normalize(presentment));
    NormalIffFixed(c);
    NormalIffFixed(d);
    hide IsNormal, Normalize, OwnsKey;
    var quote := Quote(c, d, 1.0, 0, "", false);
    log := [Write(quote, 0)];
    assert !IsFor(quote, settlement, presentment);
    assert Key(c, d) == Key(settlement, presentment);
    assert log[..0] == [];
    assert Contents(ttl, log) == map[Key(c, d) := CacheItem(quote, ttl)];
    assert FindAny(Contents(ttl, log), settlement, presentment) == Some(quote);
    assert forall at :: !IsLastWrite(log, settlement, presentment, Write(quote, at));
  }

  /** Codes without a colon, as currency codes are, always own their key. */
  lemma ColonFreeOwnsKey(settlement: string, presentment: string)
    requires ':' !in Normalize(settlement) && ':' !in Normalize(presentment)
    ensures OwnsKey(settlement, presentment)
  {
    var a, b := Normalize(settlement), Normalize(presentment);
    JoinSplits(a, b);
    assert forall j :: 0 <= j < |Join(a, b)| && j < |a| ==> Join(a, b)[j] == a[j];
    assert forall j :: |a| < j < |Join(a, b)| ==> Join(a, b)[j] == b[j - |a| - 1];
  }
}
