/** When the insights into currency pairs depend on the order of a request's
    transactions: exactly when two presentment currencies share a pair key. */
module ExposureInsights {
  import opened Text
  import opened Outcomes
  import opened Folds
  import opened ExposureModel
  import opened ExposureService
  import opened ExposureOrder

  // ----- Moving one element to the front -----

  function Fronted<T>(xs: seq<T>, i: nat): (ys: seq<T>)
    requires i < |xs|
    ensures |ys| == |xs|
  {
    [xs[i]] + Without(xs, i)
  }

  lemma FrontedPermuted<T>(xs: seq<T>, i: nat)
    requires i < |xs|
    ensures multiset(Fronted(xs, i)) == multiset(xs)
  {
    assert xs == xs[..i] + [xs[i]] + xs[i + 1..];
  }

  lemma WhereFirst<T>(x: T, rest: seq<T>, p: T -> bool)
    ensures Where([x] + rest, p) == if p(x) then [x] + Where(rest, p) else Where(rest, p)
  {
    WhereConcat([x], rest, p);
    assert [x][..0] == [] && Where([x], p) == if p(x) then [x] else [];
    hide Where;
    assert [] + Where(rest, p) == Where(rest, p);
  }

  lemma WhereWithoutOutsider<T>(xs: seq<T>, i: nat, p: T -> bool)
    requires i < |xs| && !p(xs[i])
    ensures Where(Without(xs, i), p) == Where(xs, p)
  {
    hide Where;
    WhereConcat(xs[..i], xs[i + 1..], p);
    WhereConcat(xs[..i], xs[i..], p);
    WhereFirst(xs[i], xs[i + 1..], p);
    assert xs[i..] == [xs[i]] + xs[i + 1..];
    assert xs == xs[..i] + xs[i..];
  }

  lemma FrontedWhere<T>(xs: seq<T>, i: nat, p: T -> bool)
    requires i < |xs|
    ensures p(xs[i]) ==> Where(Fronted(xs, i), p) != [] && Where(Fronted(xs, i), p)[0] == xs[i]
    ensures !p(xs[i]) ==> Where(Fronted(xs, i), p) == Where(xs, p)
  {
    WhereFirst(xs[i], Without(xs, i), p);
    hide Where, Without;
    if !p(xs[i]) { WhereWithoutOutsider(xs, i, p); }
  }

  // ----- What it changes -----

  /** Only the pair of the moved transaction changes, and it takes over its label. */
  lemma OnlyItsLabelChanges(items: seq<Assessed>, i: nat, threshold: real)
    requires i < |items|
    ensures var (moved, key) := (Fronted(items, i), PAIR_KEY_OF(items[i]));
            && PairReport(moved, threshold, key).presentment == items[i].currency
            && forall k :: k != key ==> PairReport(moved, threshold, k) == PairReport(items, threshold, k)
  {
    hide Where, Sum, Count;
    var moved, key := Fronted(items, i), PAIR_KEY_OF(items[i]);
    FrontedWhere(items, i, InGroup(PAIR_KEY_OF, key));
    forall k | k != key ensures PairReport(moved, threshold, k) == PairReport(items, threshold, k) {
      FrontedWhere(items, i, InGroup(PAIR_KEY_OF, k));
    }
  }

  /** The insights of an answer, for any listing of the keys. */
  lemma InsightsListed(items: seq<Assessed>, threshold: real, r: Response, ks: seq<string>)
    requires Ok(r) in Answers(Ok((items, threshold))) && Lists(ks, PairKeys(items))
    ensures multiset(r.riskyPairs) == multiset(MapSeq(ks, PairReports(items, threshold)))
  {
    assert IsGrouping(r.riskyPairs, PairReports(items, threshold), PairKeys(items), RiskierFirst);
    hide Answers, Lists, Sorted;
    var ls :| && Lists(ls, PairKeys(items))
              && IsSortOf(r.riskyPairs, MapSeq(ls, PairReports(items, threshold)), RiskierFirst);
    ListingsArePermutations(ks, ls, PairKeys(items));
    MapPermuted(ks, ls, PairReports(items, threshold));
  }

  lemma OneDifferenceShows<T>(xs: seq<T>, ys: seq<T>, j: nat)
    requires |xs| == |ys| && j < |xs| && xs[j] != ys[j]
    requires forall k :: 0 <= k < |xs| && k != j ==> xs[k] == ys[k]
    ensures multiset(xs) != multiset(ys)
  {
    assert ys == xs[j := ys[j]];
    assert multiset(ys) == multiset(xs) - multiset{xs[j]} + multiset{ys[j]};
    assert multiset(ys)[ys[j]] == multiset(xs)[ys[j]] + 1;
  }

  lemma RelabelledInsightsDiffer(items: seq<Assessed>, i: nat, threshold: real, r: Response, q: Response)
    requires i < |items| && items[i].currency != PairReport(items, threshold, PAIR_KEY_OF(items[i])).presentment
    requires Ok(r) in Answers(Ok((items, threshold))) && Ok(q) in Answers(Ok((Fronted(items, i), threshold)))
    ensures multiset(r.riskyPairs) != multiset(q.riskyPairs)
  {
    hide Answers, PairReport;
    var moved, key := Fronted(items, i), PAIR_KEY_OF(items[i]);
    FrontedPermuted(items, i);
    SameKeys(items, moved);
    OnlyItsLabelChanges(items, i, threshold);
    var ks := ListingExists(PairKeys(items));
    InsightsListed(items, threshold, r, ks);
    InsightsListed(moved, threshold, q, ks);
    assert key in PairKeys(items);
    var j :| 0 <= j < |ks| && ks[j] == key;
    OneDifferenceShows(MapSeq(ks, PairReports(items, threshold)), MapSeq(ks, PairReports(moved, threshold)), j);
  }

  /** Of two transactions with one key and two currencies, one is not what the key's label says. */
  lemma MislabelledExists(items: seq<Assessed>, threshold: real) returns (i: nat)
    requires !PairsSeparate(items)
    ensures i < |items| && items[i].currency != PairReport(items, threshold, PAIR_KEY_OF(items[i])).presentment
  {
    hide PairReport;
    var a, b :| a in items && b in items && PAIR_KEY_OF(a) == PAIR_KEY_OF(b) && a.currency != b.currency;
    var x := if a.currency != PairReport(items, threshold, PAIR_KEY_OF(a)).presentment then a else b;
    i :| 0 <= i < |items| && items[i] == x;
  }

  // ----- Over all orders of a request's transactions -----

  ghost predicate IsAnswer(settings: Settings, book: Book, now: int, threshold: real, txs: seq<PendingTransaction>,
                           r: Response)
  {
    var batch := AssessAll(settings, Throughout(book), now, threshold, txs);
    batch.Ok? && Ok(r) in Answers(Ok((batch.value, threshold)))
  }

  /** Whatever the order, the same insights, up to the order of equally risky ones. */
  ghost predicate InsightsIndependent(settings: Settings, book: Book, now: int, threshold: real,
                                      txs: seq<PendingTransaction>)
  {
    forall tys, r, q :: multiset(tys) == multiset(txs)
                        && IsAnswer(settings, book, now, threshold, txs, r)
                        && IsAnswer(settings, book, now, threshold, tys, q) ==>
      multiset(r.riskyPairs) == multiset(q.riskyPairs)
  }

  function PairKeyOfTransaction(tx: PendingTransaction): string {
    Join(Normalize(tx.presentmentCurrency), Normalize(tx.settlementCurrency))
  }

  /** No two presentment currencies of the request share a pair key. */
  ghost predicate KeysSeparate(txs: seq<PendingTransaction>) {
    forall x, y :: x in txs && y in txs && PairKeyOfTransaction(x) == PairKeyOfTransaction(y) ==>
      Normalize(x.presentmentCurrency) == Normalize(y.presentmentCurrency)
  }

  lemma AssessKeepsCurrencies(settings: Settings, book: Book, now: int, threshold: real, tx: PendingTransaction)
    requires Assess(settings, book, now, threshold, tx).Ok?
    ensures var a := Assess(settings, book, now, threshold, tx).value;
            a.currency == Normalize(tx.presentmentCurrency) && PAIR_KEY_OF(a) == PairKeyOfTransaction(tx)
  {
    hide Normalize;
  }

  lemma BatchPointwise(settings: Settings, book: Book, now: int, threshold: real, txs: seq<PendingTransaction>)
    ensures var batch := AssessAll(settings, Throughout(book), now, threshold, txs);
            && (batch.Ok? <==> forall i :: 0 <= i < |txs| ==> Assess(settings, book, now, threshold, txs[i]).Ok?)
            && (batch.Ok? ==>
                  && |batch.value| == |txs|
                  && forall i :: 0 <= i < |txs| ==>
                       Assess(settings, book, now, threshold, txs[i]) == Ok(batch.value[i]))
  {
    hide Assess;
    var asked, f := AskAll(txs, Throughout(book)), Assessor(settings, now, threshold);
    AllOkPointwise(asked, f);
    assert forall i :: 0 <= i < |txs| ==> f(asked[i]) == Assess(settings, book, now, threshold, txs[i]);
  }

  lemma SeparatePointwise(items: seq<Assessed>, txs: seq<PendingTransaction>)
    requires |items| == |txs|
    requires forall i :: 0 <= i < |txs| ==>
               && items[i].currency == Normalize(txs[i].presentmentCurrency)
               && PAIR_KEY_OF(items[i]) == PairKeyOfTransaction(txs[i])
    ensures PairsSeparate(items) <==> KeysSeparate(txs)
  {
    hide Normalize, Join, PairKeyOfTransaction;
    if PairsSeparate(items) {
      forall x, y | x in txs && y in txs && PairKeyOfTransaction(x) == PairKeyOfTransaction(y)
        ensures Normalize(x.presentmentCurrency) == Normalize(y.presentmentCurrency)
      {
        var i :| 0 <= i < |txs| && txs[i] == x;
        var j :| 0 <= j < |txs| && txs[j] == y;
        assert items[i] in items && items[j] in items;
      }
    }
    if KeysSeparate(txs) {
      forall a, b | a in items && b in items && PAIR_KEY_OF(a) == PAIR_KEY_OF(b) ensures a.currency == b.currency {
        var i :| 0 <= i < |items| && items[i] == a;
        var j :| 0 <= j < |items| && items[j] == b;
        assert txs[i] in txs && txs[j] in txs;
      }
    }
  }

  lemma SeparateTogether(settings: Settings, book: Book, now: int, threshold: real, txs: seq<PendingTransaction>)
    requires AssessAll(settings, Throughout(book), now, threshold, txs).Ok?
    ensures PairsSeparate(AssessAll(settings, Throughout(book), now, threshold, txs).value) <==> KeysSeparate(txs)
  {
    hide Assess, AssessAll, Normalize, Throughout, PairKeyOfTransaction, PairsSeparate, KeysSeparate;
    BatchPointwise(settings, book, now, threshold, txs);
    var items := AssessAll(settings, Throughout(book), now, threshold, txs).value;
    forall i | 0 <= i < |txs|
      ensures items[i].currency == Normalize(txs[i].presentmentCurrency)
      ensures PAIR_KEY_OF(items[i]) == PairKeyOfTransaction(txs[i])
    {
      AssessKeepsCurrencies(settings, book, now, threshold, txs[i]);
    }
    SeparatePointwise(items, txs);
  }

  lemma FrontedAssessments(settings: Settings, book: Book, now: int, threshold: real, txs: seq<PendingTransaction>,
                           i: nat)
    requires AssessAll(settings, Throughout(book), now, threshold, txs).Ok? && i < |txs|
    ensures |AssessAll(settings, Throughout(book), now, threshold, txs).value| == |txs|
    ensures AssessAll(settings, Throughout(book), now, threshold, Fronted(txs, i)) ==
            Ok(Fronted(AssessAll(settings, Throughout(book), now, threshold, txs).value, i))
  {
    hide Assess, AssessAll, Throughout;
    var moved := Fronted(txs, i);
    BatchPointwise(settings, book, now, threshold, txs);
    BatchPointwise(settings, book, now, threshold, moved);
    var items := AssessAll(settings, Throughout(book), now, threshold, txs).value;
    forall j | 0 <= j < |moved|
      ensures Assess(settings, book, now, threshold, moved[j]) == Ok(Fronted(items, i)[j])
    {
      var from := if j == 0 then i else if j <= i then j - 1 else j;
      assert moved[j] == txs[from] && Fronted(items, i)[j] == items[from];
    }
    assert AssessAll(settings, Throughout(book), now, threshold, moved).value == Fronted(items, i);
  }

  lemma SharedKeyDepends(settings: Settings, book: Book, now: int, threshold: real, txs: seq<PendingTransaction>)
    requires AssessAll(settings, Throughout(book), now, threshold, txs).Ok? && !KeysSeparate(txs)
    ensures !InsightsIndependent(settings, book, now, threshold, txs)
  {
    hide AssessAll, PairReport, KeysSeparate, Answers;
    SeparateTogether(settings, book, now, threshold, txs);
    var items := AssessAll(settings, Throughout(book), now, threshold, txs).value;
    var i := MislabelledExists(items, threshold);
    assert |items| == |txs| by { BatchPointwise(settings, book, now, threshold, txs); }
    FrontedAssessments(settings, book, now, threshold, txs, i);
    FrontedPermuted(txs, i);
    var r := EveryBatchIsAnswered(items, threshold);
    var q := EveryBatchIsAnswered(Fronted(items, i), threshold);
    RelabelledInsightsDiffer(items, i, threshold, r, q);
    assert IsAnswer(settings, book, now, threshold, txs, r);
    assert IsAnswer(settings, book, now, threshold, Fronted(txs, i), q);
  }

  /** The insights of an accepted batch are the same in every order exactly when
      no two of its presentment currencies share a pair key. */
  lemma InsightsIndependentIff(settings: Settings, book: Book, now: int, threshold: real, txs: seq<PendingTransaction>)
    requires AssessAll(settings, Throughout(book), now, threshold, txs).Ok?
    ensures InsightsIndependent(settings, book, now, threshold, txs) <==> KeysSeparate(txs)
  {
    if KeysSeparate(txs) {
      SeparateTogether(settings, book, now, threshold, txs);
      hide AssessAll, PairsSeparate, KeysSeparate, Answers;
      forall tys, r, q | multiset(tys) == multiset(txs)
                         && IsAnswer(settings, book, now, threshold, txs, r)
                         && IsAnswer(settings, book, now, threshold, tys, q)
        ensures multiset(r.riskyPairs) == multiset(q.riskyPairs)
      {
        BatchesAgree(settings, book, now, threshold, txs, tys);
        InsightsAgree(AssessAll(settings, Throughout(book), now, threshold, txs).value,
                      AssessAll(settings, Throughout(book), now, threshold, tys).value, threshold, r, q);
      }
    } else {
      SharedKeyDepends(settings, book, now, threshold, txs);
    }
  }
}
