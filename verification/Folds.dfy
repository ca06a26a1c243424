/** Sums, counts, groups and sorted permutations of sequences, and the facts
    about them that do not depend on the order of the elements. */
module Folds {

  // ----- Sums and counts -----

  function Sum<T>(xs: seq<T>, f: T -> real): real {
    if xs == [] then 0.0 else Sum(xs[..|xs| - 1], f) + f(xs[|xs| - 1])
  }

  function Count<T>(xs: seq<T>, p: T -> bool): nat {
    if xs == [] then 0 else Count(xs[..|xs| - 1], p) + (if p(xs[|xs| - 1]) then 1 else 0)
  }

  function Where<T>(xs: seq<T>, p: T -> bool): seq<T> {
    if xs == [] then []
    else Where(xs[..|xs| - 1], p) + (if p(xs[|xs| - 1]) then [xs[|xs| - 1]] else [])
  }

  lemma {:induction false} SumConcat<T>(xs: seq<T>, ys: seq<T>, f: T -> real)
    ensures Sum(xs + ys, f) == Sum(xs, f) + Sum(ys, f)
  {
    if ys == [] {
      assert xs + ys == xs;
    } else {
      assert (xs + ys)[..|xs + ys| - 1] == xs + ys[..|ys| - 1];
      SumConcat(xs, ys[..|ys| - 1], f);
    }
  }

  lemma SumSnoc<T>(xs: seq<T>, x: T, f: T -> real)
    ensures Sum(xs + [x], f) == Sum(xs, f) + f(x)
  {
    assert (xs + [x])[..|xs|] == xs;
  }

  lemma CountSnoc<T>(xs: seq<T>, x: T, p: T -> bool)
    ensures Count(xs + [x], p) == Count(xs, p) + (if p(x) then 1 else 0)
  {
    assert (xs + [x])[..|xs|] == xs;
  }

  lemma WhereSnoc<T>(xs: seq<T>, x: T, p: T -> bool)
    ensures Where(xs + [x], p) == Where(xs, p) + (if p(x) then [x] else [])
  {
    assert (xs + [x])[..|xs|] == xs;
  }

  function Indicator<T>(p: T -> bool): T -> real {
    x => if p(x) then 1.0 else 0.0
  }

  function Masked<T>(f: T -> real, p: T -> bool): T -> real {
    x => if p(x) then f(x) else 0.0
  }

  lemma {:induction false} CountIsSum<T>(xs: seq<T>, p: T -> bool)
    ensures Count(xs, p) as real == Sum(xs, Indicator(p))
  {
    if xs != [] { CountIsSum(xs[..|xs| - 1], p); }
  }

  lemma {:induction false} WhereConcat<T>(xs: seq<T>, ys: seq<T>, p: T -> bool)
    ensures Where(xs + ys, p) == Where(xs, p) + Where(ys, p)
  {
    if ys == [] {
      assert xs + ys == xs;
    } else {
      assert (xs + ys)[..|xs + ys| - 1] == xs + ys[..|ys| - 1];
      WhereConcat(xs, ys[..|ys| - 1], p);
    }
  }

  lemma {:induction false} WhereSum<T>(xs: seq<T>, p: T -> bool, f: T -> real)
    ensures Sum(Where(xs, p), f) == Sum(xs, Masked(f, p))
  {
    if xs != [] {
      var front := Where(xs[..|xs| - 1], p);
      WhereSum(xs[..|xs| - 1], p, f);
      SumSnoc(front, xs[|xs| - 1], f);
      assert front + [] == front;
    }
  }

  lemma {:induction false} WhereMembers<T>(xs: seq<T>, p: T -> bool)
    ensures forall x :: x in Where(xs, p) <==> x in xs && p(x)
  {
    if xs != [] { WhereMembers(xs[..|xs| - 1], p); }
  }

  // ----- Order does not matter -----

  function Without<T>(xs: seq<T>, i: nat): seq<T>
    requires i < |xs|
  {
    xs[..i] + xs[i + 1..]
  }

  lemma WithoutMultiset<T>(xs: seq<T>, i: nat)
    requires i < |xs|
    ensures multiset(Without(xs, i)) == multiset(xs) - multiset{xs[i]}
  {
    assert xs == xs[..i] + [xs[i]] + xs[i + 1..];
  }

  lemma SumWithout<T>(xs: seq<T>, i: nat, f: T -> real)
    requires i < |xs|
    ensures Sum(xs, f) == Sum(Without(xs, i), f) + f(xs[i])
  {
    hide Sum;
    assert xs == xs[..i] + [xs[i]] + xs[i + 1..];
    SumConcat(xs[..i] + [xs[i]], xs[i + 1..], f);
    SumSnoc(xs[..i], xs[i], f);
    SumConcat(xs[..i], xs[i + 1..], f);
  }

  lemma SameElements<T>(xs: seq<T>, ys: seq<T>)
    requires multiset(xs) == multiset(ys)
    ensures |xs| == |ys|
    ensures forall x :: x in xs <==> x in ys
  {
    assert |multiset(xs)| == |multiset(ys)|;
    forall x ensures x in xs <==> x in ys {
      assert x in xs <==> x in multiset(xs);
      assert x in ys <==> x in multiset(ys);
    }
  }

  lemma {:induction false} SumPermuted<T>(xs: seq<T>, ys: seq<T>, f: T -> real)
    requires multiset(xs) == multiset(ys)
    ensures Sum(xs, f) == Sum(ys, f)
    decreases |xs|
  {
    SameElements(xs, ys);
    if xs != [] {
      var i := |xs| - 1;
      assert xs[i] in ys;
      var j :| 0 <= j < |ys| && ys[j] == xs[i];
      WithoutMultiset(xs, i);
      WithoutMultiset(ys, j);
      SumWithout(xs, i, f);
      SumWithout(ys, j, f);
      SumPermuted(Without(xs, i), Without(ys, j), f);
    }
  }

  lemma CountPermuted<T>(xs: seq<T>, ys: seq<T>, p: T -> bool)
    requires multiset(xs) == multiset(ys)
    ensures Count(xs, p) == Count(ys, p)
  {
    CountIsSum(xs, p);
    CountIsSum(ys, p);
    SumPermuted(xs, ys, Indicator(p));
  }

  // ----- Grouping -----

  predicate Distinct<K(==)>(ks: seq<K>) {
    forall i, j :: 0 <= i < j < |ks| ==> ks[i] != ks[j]
  }

  function InGroup<T, K(==)>(key: T -> K, k: K): T -> bool {
    x => key(x) == k
  }

  /** The sum within each group. */
  function GroupTotal<T, K(==)>(xs: seq<T>, f: T -> real, key: T -> K): K -> real {
    k => Sum(Where(xs, InGroup(key, k)), f)
  }

  lemma {:induction false} GroupTotalsSnoc<T, K>(xs: seq<T>, x: T, f: T -> real, key: T -> K, ks: seq<K>)
    requires Distinct(ks)
    ensures Sum(ks, GroupTotal(xs + [x], f, key)) ==
            Sum(ks, GroupTotal(xs, f, key)) + (if key(x) in ks then f(x) else 0.0)
  {
    if ks != [] {
      var k := ks[|ks| - 1];
      var members := Where(xs, InGroup(key, k));
      GroupTotalsSnoc(xs, x, f, key, ks[..|ks| - 1]);
      WhereSnoc(xs, x, InGroup(key, k));
      SumSnoc(members, x, f);
      assert members + [] == members;
      assert key(x) in ks <==> key(x) in ks[..|ks| - 1] || key(x) == k;
    }
  }

  lemma {:induction false} GroupTotalsOfNothing<T, K>(f: T -> real, key: T -> K, ks: seq<K>)
    ensures Sum(ks, GroupTotal([], f, key)) == 0.0
  {
    if ks != [] { GroupTotalsOfNothing(f, key, ks[..|ks| - 1]); }
  }

  /** Summing group by group loses and repeats nothing. */
  lemma {:induction false} GroupTotalsAddUp<T, K>(xs: seq<T>, f: T -> real, key: T -> K, ks: seq<K>)
    requires Distinct(ks)
    requires forall x :: x in xs ==> key(x) in ks
    ensures Sum(ks, GroupTotal(xs, f, key)) == Sum(xs, f)
    decreases |xs|
  {
    if xs == [] {
      GroupTotalsOfNothing(f, key, ks);
    } else {
      var front, x := xs[..|xs| - 1], xs[|xs| - 1];
      assert xs == front + [x];
      GroupTotalsAddUp(front, f, key, ks);
      GroupTotalsSnoc(front, x, f, key, ks);
    }
  }

  lemma {:induction false} WhereWithin<T>(xs: seq<T>, p: T -> bool, q: T -> bool)
    requires forall x :: x in xs && q(x) ==> p(x)
    ensures Where(Where(xs, p), q) == Where(xs, q)
  {
    if xs != [] {
      var front, x := xs[..|xs| - 1], xs[|xs| - 1];
      WhereWithin(front, p, q);
      WhereSnoc(Where(front, p), x, q);
      assert Where(front, p) + [] == Where(front, p) && Where(front, q) + [] == Where(front, q);
    }
  }

  lemma {:induction false} WhereDistinct<K>(ks: seq<K>, p: K -> bool)
    requires Distinct(ks)
    ensures Distinct(Where(ks, p))
  {
    if ks != [] {
      WhereDistinct(ks[..|ks| - 1], p);
      WhereMembers(ks[..|ks| - 1], p);
      assert ks[|ks| - 1] !in ks[..|ks| - 1];
    }
  }

  // ----- Mapping and listing -----

  function MapSeq<T, U>(xs: seq<T>, f: T -> U): (ys: seq<U>)
    ensures |ys| == |xs| && forall i :: 0 <= i < |xs| ==> ys[i] == f(xs[i])
  {
    seq(|xs|, i requires 0 <= i < |xs| => f(xs[i]))
  }

  lemma {:induction false} SumMapped<T, U>(xs: seq<T>, f: T -> U, g: U -> real, h: T -> real)
    requires forall x :: x in xs ==> g(f(x)) == h(x)
    ensures Sum(MapSeq(xs, f), g) == Sum(xs, h)
  {
    if xs != [] {
      SumMapped(xs[..|xs| - 1], f, g, h);
      assert MapSeq(xs, f)[..|xs| - 1] == MapSeq(xs[..|xs| - 1], f);
    }
  }

  lemma MapWithout<T, U>(xs: seq<T>, i: nat, f: T -> U)
    requires i < |xs|
    ensures MapSeq(Without(xs, i), f) == Without(MapSeq(xs, f), i)
  {
  }

  lemma {:induction false} MapPermuted<T, U>(xs: seq<T>, ys: seq<T>, f: T -> U)
    requires multiset(xs) == multiset(ys)
    ensures multiset(MapSeq(xs, f)) == multiset(MapSeq(ys, f))
    decreases |xs|
  {
    SameElements(xs, ys);
    if xs != [] {
      var i := |xs| - 1;
      assert xs[i] in ys;
      var j :| 0 <= j < |ys| && ys[j] == xs[i];
      WithoutMultiset(xs, i);
      WithoutMultiset(ys, j);
      MapPermuted(Without(xs, i), Without(ys, j), f);
      MapWithout(xs, i, f);
      MapWithout(ys, j, f);
      PutBack(MapSeq(xs, f), i, MapSeq(ys, f), j);
    }
  }

  lemma PutBack<T>(xs: seq<T>, i: nat, ys: seq<T>, j: nat)
    requires i < |xs| && j < |ys| && xs[i] == ys[j]
    requires multiset(Without(xs, i)) == multiset(Without(ys, j))
    ensures multiset(xs) == multiset(ys)
  {
    assert xs == xs[..i] + [xs[i]] + xs[i + 1..];
    assert ys == ys[..j] + [ys[j]] + ys[j + 1..];
    assert multiset(xs) == multiset(Without(xs, i)) + multiset{xs[i]};
    assert multiset(ys) == multiset(Without(ys, j)) + multiset{ys[j]};
  }

  /** `ks` lists the elements of a set, each once, in some order. */
  ghost predicate Lists<K(!new)>(ks: seq<K>, s: set<K>) {
    Distinct(ks) && forall k :: k in ks <==> k in s
  }

  lemma {:induction false} ListingsArePermutations<K(!new)>(ks: seq<K>, ls: seq<K>, s: set<K>)
    requires Lists(ks, s) && Lists(ls, s)
    ensures multiset(ks) == multiset(ls)
    decreases |ks|
  {
    assert ls != [] ==> ls[0] in ls;
    if ks != [] {
      var i := |ks| - 1;
      assert ks[i] in s && ks[i] in ls;
      var j :| 0 <= j < |ls| && ls[j] == ks[i];
      WithoutLists(ks, i, s);
      WithoutLists(ls, j, s);
      ListingsArePermutations(Without(ks, i), Without(ls, j), s - {ks[i]});
      PutBack(ks, i, ls, j);
    }
  }

  lemma WithoutLists<K(!new)>(ks: seq<K>, i: nat, s: set<K>)
    requires Lists(ks, s) && i < |ks|
    ensures Lists(Without(ks, i), s - {ks[i]})
  {
    var rest := Without(ks, i);
    forall k ensures k in rest <==> k in s - {ks[i]} {
      if k in s - {ks[i]} {
        var j :| 0 <= j < |ks| && ks[j] == k;
        assert rest[if j < i then j else j - 1] == k;
      }
    }
  }

  // ----- Sorting -----

  /** No element comes before one that should precede it. */
  predicate Sorted<T(!new)>(xs: seq<T>, less: (T, T) -> bool) {
    forall i, j :: 0 <= i < j < |xs| ==> !less(xs[j], xs[i])
  }

  /** What a library sort promises, whatever its algorithm. */
  ghost predicate IsSortOf<T(!new)>(ys: seq<T>, xs: seq<T>, less: (T, T) -> bool) {
    multiset(ys) == multiset(xs) && Sorted(ys, less)
  }

  ghost predicate StrictWeak<T(!new)>(less: (T, T) -> bool) {
    && (forall x, y :: less(x, y) ==> !less(y, x))
    && (forall x, y, z :: less(x, y) ==> less(x, z) || less(z, y))
  }

  function Insert<T(!new)>(x: T, xs: seq<T>, less: (T, T) -> bool): seq<T> {
    if xs == [] || !less(x, xs[|xs| - 1]) then xs + [x]
    else Insert(x, xs[..|xs| - 1], less) + [xs[|xs| - 1]]
  }

  function SortBy<T(!new)>(xs: seq<T>, less: (T, T) -> bool): seq<T> {
    if xs == [] then [] else Insert(xs[|xs| - 1], SortBy(xs[..|xs| - 1], less), less)
  }

  lemma {:induction false} InsertMultiset<T(!new)>(x: T, xs: seq<T>, less: (T, T) -> bool)
    ensures multiset(Insert(x, xs, less)) == multiset(xs) + multiset{x}
  {
    if !(xs == [] || !less(x, xs[|xs| - 1])) {
      InsertMultiset(x, xs[..|xs| - 1], less);
      assert xs == xs[..|xs| - 1] + [xs[|xs| - 1]];
    }
  }

  lemma {:induction false} InsertSorted<T(!new)>(x: T, xs: seq<T>, less: (T, T) -> bool)
    requires StrictWeak(less) && Sorted(xs, less)
    ensures Sorted(Insert(x, xs, less), less)
  {
    if xs == [] {
    } else if !less(x, xs[|xs| - 1]) {
      forall i | 0 <= i < |xs| ensures !less(x, xs[i]) {
        assert i < |xs| - 1 ==> !less(xs[|xs| - 1], xs[i]);
      }
    } else {
      var front, last := xs[..|xs| - 1], xs[|xs| - 1];
      var placed := Insert(x, front, less);
      InsertSorted(x, front, less);
      InsertMultiset(x, front, less);
      forall y | y in placed ensures !less(last, y) {
        assert y in multiset(front) + multiset{x};
      }
    }
  }

  lemma {:induction false} SortBySorts<T(!new)>(xs: seq<T>, less: (T, T) -> bool)
    requires StrictWeak(less)
    ensures IsSortOf(SortBy(xs, less), xs, less)
  {
    if xs != [] {
      SortBySorts(xs[..|xs| - 1], less);
      InsertMultiset(xs[|xs| - 1], SortBy(xs[..|xs| - 1], less), less);
      InsertSorted(xs[|xs| - 1], SortBy(xs[..|xs| - 1], less), less);
      assert xs == xs[..|xs| - 1] + [xs[|xs| - 1]];
    }
  }

  /** Two elements the order does not tell apart. */
  predicate Tied<T(!new)>(less: (T, T) -> bool, x: T, y: T) {
    !less(x, y) && !less(y, x)
  }

  ghost predicate NoTies<T(!new)>(xs: seq<T>, less: (T, T) -> bool) {
    forall x, y :: x in xs && y in xs && Tied(less, x, y) ==> x == y
  }

  /** Two sorted orders of the same elements end in elements the order does not
      tell apart. */
  lemma LastsTied<T(!new)>(ys: seq<T>, zs: seq<T>, less: (T, T) -> bool)
    requires StrictWeak(less) && multiset(ys) == multiset(zs) && ys != [] && zs != []
    requires Sorted(ys, less) && Sorted(zs, less)
    ensures Tied(less, ys[|ys| - 1], zs[|zs| - 1])
  {
    SameElements(ys, zs);
    var y, z := ys[|ys| - 1], zs[|zs| - 1];
    assert y in ys && z in zs;
    var i :| 0 <= i < |zs| && zs[i] == y;
    var j :| 0 <= j < |ys| && ys[j] == z;
    assert !less(z, y) && !less(y, z);
  }

  lemma NoTiesWithin<T(!new)>(xs: seq<T>, ys: seq<T>, less: (T, T) -> bool)
    requires NoTies(xs, less) && forall y :: y in ys ==> y in xs
    ensures NoTies(ys, less)
  {
  }

  lemma SortedFront<T(!new)>(ys: seq<T>, less: (T, T) -> bool)
    requires Sorted(ys, less) && ys != []
    ensures Sorted(ys[..|ys| - 1], less)
  {
  }

  lemma FrontsPermuted<T(!new)>(ys: seq<T>, zs: seq<T>)
    requires multiset(ys) == multiset(zs) && ys != [] && zs != [] && ys[|ys| - 1] == zs[|zs| - 1]
    ensures multiset(ys[..|ys| - 1]) == multiset(zs[..|zs| - 1])
  {
    WithoutMultiset(ys, |ys| - 1);
    WithoutMultiset(zs, |zs| - 1);
    assert Without(ys, |ys| - 1) == ys[..|ys| - 1] && Without(zs, |zs| - 1) == zs[..|zs| - 1];
  }

  /** Without ties the last element is the same, and so on down. */
  lemma LastsEqual<T(!new)>(ys: seq<T>, zs: seq<T>, less: (T, T) -> bool)
    requires StrictWeak(less) && NoTies(ys, less) && multiset(ys) == multiset(zs) && ys != [] && zs != []
    requires Sorted(ys, less) && Sorted(zs, less)
    ensures ys[|ys| - 1] == zs[|zs| - 1]
  {
    LastsTied(ys, zs, less);
    hide StrictWeak, Sorted;
    SameElements(ys, zs);
    var y, z := ys[|ys| - 1], zs[|zs| - 1];
    assert y in ys && z in zs && z in ys;
    assert Tied(less, y, z);
  }

  lemma {:induction false} SortedSame<T(!new)>(ys: seq<T>, zs: seq<T>, less: (T, T) -> bool)
    requires StrictWeak(less) && NoTies(ys, less) && multiset(ys) == multiset(zs)
    requires Sorted(ys, less) && Sorted(zs, less)
    ensures ys == zs
    decreases |ys|
  {
    assert |ys| == |multiset(ys)| == |multiset(zs)| == |zs|;
    if ys != [] {
      hide Sorted, StrictWeak, NoTies;
      var front, rest := ys[..|ys| - 1], zs[..|zs| - 1];
      LastsEqual(ys, zs, less);
      FrontsPermuted(ys, zs);
      SortedFront(ys, less);
      SortedFront(zs, less);
      NoTiesWithin(ys, front, less);
      SortedSame(front, rest, less);
      assert ys == front + [ys[|ys| - 1]] && zs == rest + [zs[|zs| - 1]];
    }
  }

  lemma SortUnique<T(!new)>(xs: seq<T>, ys: seq<T>, zs: seq<T>, less: (T, T) -> bool)
    requires StrictWeak(less) && NoTies(xs, less)
    requires IsSortOf(ys, xs, less) && IsSortOf(zs, xs, less)
    ensures ys == zs
  {
    SameElements(ys, xs);
    hide Sorted, StrictWeak, NoTies;
    NoTiesWithin(xs, ys, less);
    SortedSame(ys, zs, less);
  }

  /** Exchanging two tied elements of a sorted sequence gives another sorted
      permutation. */
  lemma TieBreaksUniqueness<T(!new)>(xs: seq<T>, ys: seq<T>, less: (T, T) -> bool) returns (zs: seq<T>)
    requires StrictWeak(less) && IsSortOf(ys, xs, less) && !NoTies(xs, less)
    ensures IsSortOf(zs, xs, less) && zs != ys
  {
    hide Sorted;
    SameElements(ys, xs);
    var x, y :| x in xs && y in xs && Tied(less, x, y) && x != y;
    var i :| 0 <= i < |ys| && ys[i] == x;
    var j :| 0 <= j < |ys| && ys[j] == y;
    zs := ys[i := y][j := x];
    SwapTiedSorted(ys, i, j, less);
  }

  lemma SwapTiedSorted<T(!new)>(ys: seq<T>, i: nat, j: nat, less: (T, T) -> bool)
    requires StrictWeak(less) && Sorted(ys, less) && i < |ys| && j < |ys| && Tied(less, ys[i], ys[j])
    ensures var zs := ys[i := ys[j]][j := ys[i]]; multiset(zs) == multiset(ys) && Sorted(zs, less)
  {
    var zs := ys[i := ys[j]][j := ys[i]];
    forall a, b | 0 <= a < b < |zs| ensures !less(zs[b], zs[a]) {
      assert !less(ys[b], ys[a]);
    }
  }

  /** The outcome of sorting is unique exactly when no two different elements tie. */
  lemma SortUniqueIff<T(!new)>(xs: seq<T>, less: (T, T) -> bool)
    requires StrictWeak(less)
    ensures NoTies(xs, less) <==>
            forall ys, zs :: IsSortOf(ys, xs, less) && IsSortOf(zs, xs, less) ==> ys == zs
  {
    if NoTies(xs, less) {
      forall ys, zs | IsSortOf(ys, xs, less) && IsSortOf(zs, xs, less) ensures ys == zs {
        SortUnique(xs, ys, zs, less);
      }
    } else {
      SortBySorts(xs, less);
      var zs := TieBreaksUniqueness(xs, SortBy(xs, less), less);
    }
  }
}
