/** The configured list of supported currencies, and the two gates built from
    it: the exposure service's and the rates provider's. */
module Configuration {
  import opened Text
  import opened Folds
  import opened Outcomes
  import opened Quotes
  import RateCache
  import ExposureModel
  import RateProvider

  const DEFAULT_CURRENCIES: seq<string> := ["USD", "EUR", "BRL", "MXN", "COP", "ARS", "CLP"]

  predicate IsBlank(code: string) {
    Normalize(code) == ""
  }

  /** The normal forms of the codes that are not blank, each where it first occurs. */
  function FirstOccurrences(codes: seq<string>): seq<string> {
    if codes == [] then []
    else
      var front, code := FirstOccurrences(codes[..|codes| - 1]), Normalize(codes[|codes| - 1]);
      if code == "" || code in front then front else front + [code]
  }

  function SupportedList(codes: seq<string>): seq<string> {
    var normalized := FirstOccurrences(codes);
    if normalized == [] then DEFAULT_CURRENCIES else normalized
  }

  class Config {
    var supportedCurrencies: seq<string>

    constructor (codes: seq<string>)
      ensures supportedCurrencies == codes
    {
      supportedCurrencies := codes;
    }

    method NormalizeSupportedCurrencies()
      modifies this
      ensures supportedCurrencies == SupportedList(old(supportedCurrencies))
    {
      if |supportedCurrencies| == 0 {
        supportedCurrencies := DEFAULT_CURRENCIES;
        return;
      }
      var normalized: seq<string> := [];
      var seen: set<string> := {};
      for i := 0 to |supportedCurrencies|
        invariant supportedCurrencies == old(supportedCurrencies)
        invariant normalized == FirstOccurrences(supportedCurrencies[..i])
        invariant forall code :: code in seen <==> code in normalized
      {
        assert supportedCurrencies[..i + 1][..i] == supportedCurrencies[..i];
        var trimmed := Normalize(supportedCurrencies[i]);
        if trimmed == "" {
          continue;
        }
        if trimmed in seen {
          continue;
        }
        normalized := normalized + [trimmed];
        seen := seen + {trimmed};
      }
      assert supportedCurrencies[..|supportedCurrencies|] == supportedCurrencies;
      if |normalized| == 0 {
        supportedCurrencies := DEFAULT_CURRENCIES;
        return;
      }
      supportedCurrencies := normalized;
    }
  }

  // ----- What the list is -----

  /** Position `i` holds the first code with its normal form. */
  predicate IsFirst(codes: seq<string>, i: nat)
    requires i < |codes|
  {
    !IsBlank(codes[i]) && forall j :: 0 <= j < i ==> Normalize(codes[j]) != Normalize(codes[i])
  }

  /** `list` reads off the codes at the first positions, all of them, in order. */
  ghost predicate ReadsFirsts(list: seq<string>, codes: seq<string>, at: seq<nat>) {
    && |at| == |list|
    && (forall k :: 0 <= k < |at| ==> at[k] < |codes| && IsFirst(codes, at[k]) && list[k] == Normalize(codes[at[k]]))
    && (forall k, l :: 0 <= k < l < |at| ==> at[k] < at[l])
    && (forall i: nat :: i < |codes| && IsFirst(codes, i) ==> i in at)
  }

  lemma {:induction false} FirstOccurrencesMembers(codes: seq<string>)
    ensures forall c :: c in FirstOccurrences(codes) <==>
              c != "" && exists i :: 0 <= i < |codes| && Normalize(codes[i]) == c
  {
    hide Normalize;
    if codes != [] { FirstOccurrencesMembers(codes[..|codes| - 1]); }
  }

  lemma IsFirstOfFront(codes: seq<string>, i: nat)
    requires i < |codes| - 1
    ensures IsFirst(codes[..|codes| - 1], i) <==> IsFirst(codes, i)
  {
  }

  lemma LastIsFirstIff(codes: seq<string>)
    requires codes != []
    ensures var code := Normalize(codes[|codes| - 1]);
            IsFirst(codes, |codes| - 1) <==> code != "" && code !in FirstOccurrences(codes[..|codes| - 1])
  {
    FirstOccurrencesMembers(codes[..|codes| - 1]);
    hide Normalize;
  }

  lemma FirstsOfFront(codes: seq<string>)
    requires codes != []
    ensures forall i: nat :: i < |codes| - 1 ==> (IsFirst(codes[..|codes| - 1], i) <==> IsFirst(codes, i))
  {
    forall i: nat | i < |codes| - 1 ensures IsFirst(codes[..|codes| - 1], i) <==> IsFirst(codes, i) {
      IsFirstOfFront(codes, i);
    }
  }

  lemma ReadsOneMore(list: seq<string>, codes: seq<string>, at: seq<nat>)
    requires codes != [] && ReadsFirsts(list, codes[..|codes| - 1], at)
    ensures var n := |codes| - 1;
            if IsFirst(codes, n) then ReadsFirsts(list + [Normalize(codes[n])], codes, at + [n])
            else ReadsFirsts(list, codes, at)
  {
    FirstsOfFront(codes);
    hide IsFirst, Normalize;
    var n := |codes| - 1;
    if IsFirst(codes, n) {
      assert (at + [n])[|at|] == n;
      assert forall i :: i in at ==> i in at + [n];
    }
  }

  /** The list is in the order of first occurrence. */
  lemma {:induction false} InOrderOfFirstOccurrence(codes: seq<string>) returns (at: seq<nat>)
    ensures ReadsFirsts(FirstOccurrences(codes), codes, at)
  {
    at := [];
    if codes != [] {
      var front := codes[..|codes| - 1];
      at := InOrderOfFirstOccurrence(front);
      ReadsOneMore(FirstOccurrences(front), codes, at);
      LastIsFirstIff(codes);
      hide IsFirst, Normalize, ReadsFirsts;
      if IsFirst(codes, |codes| - 1) { at := at + [|codes| - 1]; }
    }
  }

  predicate IsCleanList(list: seq<string>) {
    list != [] && Distinct(list) && forall c :: c in list ==> c != "" && IsNormal(c)
  }

  lemma {:induction false} FirstOccurrencesDistinct(codes: seq<string>)
    ensures Distinct(FirstOccurrences(codes))
  {
    if codes != [] { FirstOccurrencesDistinct(codes[..|codes| - 1]); }
  }

  lemma DefaultsAreClean()
    ensures IsCleanList(DEFAULT_CURRENCIES)
  {
  }

  /** What is listed: the normal forms of the codes, or if all are blank the seven
      default ones. */
  lemma SupportedListIs(codes: seq<string>)
    ensures if forall code :: code in codes ==> Normalize(code) == ""
            then SupportedList(codes) == ["USD", "EUR", "BRL", "MXN", "COP", "ARS", "CLP"]
            else
              forall c :: c in SupportedList(codes) <==>
                c != "" && exists i :: 0 <= i < |codes| && Normalize(codes[i]) == c
  {
    FirstOccurrencesMembers(codes);
    hide Normalize;
    if code :| code in codes && Normalize(code) != "" {
      var i :| 0 <= i < |codes| && codes[i] == code;
      assert Normalize(codes[i]) in FirstOccurrences(codes);
    } else {
      assert FirstOccurrences(codes) != [] ==> FirstOccurrences(codes)[0] in FirstOccurrences(codes);
    }
  }

  /** The configured list is nonempty, free of duplicates and in normal form. */
  lemma SupportedListIsClean(codes: seq<string>)
    ensures IsCleanList(SupportedList(codes))
  {
    var list := FirstOccurrences(codes);
    if list == [] {
      DefaultsAreClean();
    } else {
      FirstOccurrencesMembers(codes);
      FirstOccurrencesDistinct(codes);
      forall c | c in list ensures c != "" && IsNormal(c) {
        var i :| 0 <= i < |codes| && Normalize(codes[i]) == c;
        NormalizeIsNormal(codes[i]);
      }
    }
  }

  lemma {:induction false} CleanListIsFixed(list: seq<string>)
    requires Distinct(list) && forall c :: c in list ==> c != "" && IsNormal(c)
    ensures FirstOccurrences(list) == list
  {
    if list != [] {
      var front, c := list[..|list| - 1], list[|list| - 1];
      assert c in list && c !in front && forall d :: d in front ==> d in list;
      CleanListIsFixed(front);
      NormalIffFixed(c);
      hide Normalize, IsNormal;
      assert front + [c] == list;
    }
  }

  lemma NormalizingIsIdempotent(codes: seq<string>)
    ensures SupportedList(SupportedList(codes)) == SupportedList(codes)
  {
    var list := SupportedList(codes);
    SupportedListIsClean(codes);
    assert forall c :: c in list ==> c != "" && IsNormal(c);
    CleanListIsFixed(list);
  }

  // ----- The two gates -----

  /** The provider's settings for a list of codes. */
  function ProviderConfig(codes: seq<string>, attempts: int, sla: int): RateProvider.Config {
    RateProvider.Config(attempts, sla, set code | code in codes :: Normalize(code))
  }

  predicate EngineAdmits(codes: seq<string>, settlement: string, presentment: string) {
    var supported := ExposureModel.SupportedSet(codes);
    supported != {} ==> Normalize(presentment) in supported && Normalize(settlement) in supported
  }

  /** Both gates let the same pairs of currencies through. */
  ghost predicate GatesAgree(codes: seq<string>) {
    forall s, p, attempts, sla :: !IsBlank(s) && !IsBlank(p) ==>
      (EngineAdmits(codes, s, p) <==>
       RateProvider.PairSupported(ProviderConfig(codes, attempts, sla), Normalize(s), Normalize(p)))
  }

  /** On a list as it stands, the gates agree unless it holds nothing but blanks:
      then the engine admits every currency and the provider none. */
  lemma GatesAgreeIff(codes: seq<string>)
    ensures GatesAgree(codes) <==> codes == [] || exists code :: code in codes && !IsBlank(code)
  {
    if code :| code in codes && !IsBlank(code) {
      assert Normalize(code) in ExposureModel.SupportedSet(codes);
    } else if codes != [] {
      var blank := codes[0];
      assert IsBlank(blank);
      assert Normalize(blank) in ProviderConfig(codes, 1, 0).supported;
      assert ExposureModel.SupportedSet(codes) == {};
      assert Normalize("A") == "A";
      assert EngineAdmits(codes, "A", "A");
      assert !RateProvider.PairSupported(ProviderConfig(codes, 1, 0), Normalize("A"), Normalize("A"));
    }
  }

  lemma AcceptedPairIsSupported(codes: seq<string>, attempts: int, sla: int, tx: ExposureModel.PendingTransaction)
    requires ExposureModel.IsValid(tx, ExposureModel.SupportedSet(SupportedList(codes)))
    ensures !IsBlank(tx.settlementCurrency) && !IsBlank(tx.presentmentCurrency)
    ensures RateProvider.PairSupported(ProviderConfig(SupportedList(codes), attempts, sla),
              Normalize(tx.settlementCurrency), Normalize(tx.presentmentCurrency))
  {
    var list := SupportedList(codes);
    SupportedListIsClean(codes);
    GatesAgreeIff(list);
    var c := list[0];
    assert c in list && IsNormal(c);
    NormalIffFixed(c);
    hide IsNormal, SupportedList;
    assert EngineAdmits(list, tx.settlementCurrency, tx.presentmentCurrency);
  }

  predicate IsRejected(r: Result<Quote, RateError>) {
    r == Err(UnsupportedCurrencyPair)
  }

  /** Under the configured list the provider rejects no currency pair of a
      transaction the service accepted, at whatever state of its cache. */
  lemma AcceptedTransactionsPassTheProvider(codes: seq<string>, attempts: int, sla: int,
                                            tx: ExposureModel.PendingTransaction, at: int, up: RateProvider.Upstream,
                                            items: map<string, RateCache.CacheItem>)
    requires ExposureModel.IsValid(tx, ExposureModel.SupportedSet(SupportedList(codes)))
    ensures var config := ProviderConfig(SupportedList(codes), attempts, sla);
            var (s, p) := (tx.settlementCurrency, tx.presentmentCurrency);
            && !IsRejected(RateProvider.Historical(config, s, p, at, up).0)
            && var looked := RateProvider.LookUp(config, items, s, p, at);
               looked.Answered? ==> !IsRejected(looked.result)
  {
    AcceptedPairIsSupported(codes, attempts, sla, tx);
    hide Normalize, ExposureModel.IsValid, RateProvider.LastAttempt, RateCache.FindFresh, SupportedList, ProviderConfig,
      RateProvider.PairSupported;
  }
}
