/** Rounding to four decimals, half away from zero, over the reals. */
module Rounding {
  import opened Folds

  function RoundHalfAway(x: real): int {
    if x >= 0.0 then (x + 0.5).Floor else -((0.5 - x).Floor)
  }

  function Round(v: real): real {
    RoundHalfAway(v * 10000.0) as real / 10000.0
  }

  function Abs(x: real): real {
    if x < 0.0 then -x else x
  }

  lemma RoundWithin(v: real)
    ensures Abs(Round(v) - v) <= 0.00005
  {
    var x := v * 10000.0;
    assert -0.5 <= RoundHalfAway(x) as real - x <= 0.5;
  }

  predicate IsFourDecimals(v: real) {
    (v * 10000.0).Floor as real == v * 10000.0
  }

  /** The result has four decimals; no such number is closer, and of two equally
      close ones the result is the one farther from zero. */
  lemma RoundNearest(v: real, k: int)
    ensures IsFourDecimals(Round(v))
    ensures Abs(Round(v) - v) <= Abs(k as real / 10000.0 - v)
    ensures Abs(Round(v) - v) == Abs(k as real / 10000.0 - v) ==> Abs(Round(v)) >= Abs(k as real / 10000.0)
  {
    var x := v * 10000.0;
    var n := RoundHalfAway(x);
    assert Round(v) * 10000.0 == n as real;
    assert Abs(n as real - x) <= 0.5;
    if n < k { assert k >= n + 1; } else if k < n { assert n >= k + 1; }
  }

  lemma RoundMonotone(v: real, w: real)
    requires v <= w
    ensures Round(v) <= Round(w)
  {
    assert v * 10000.0 <= w * 10000.0;
    assert RoundHalfAway(v * 10000.0) <= RoundHalfAway(w * 10000.0);
  }

  lemma RoundOdd(v: real)
    ensures Round(-v) == -Round(v)
  {
    assert (-v) * 10000.0 == -(v * 10000.0);
  }

  lemma RoundIdempotent(v: real)
    ensures Round(Round(v)) == Round(v)
  {
    var n := RoundHalfAway(v * 10000.0);
    assert Round(v) * 10000.0 == n as real;
    assert RoundHalfAway(n as real) == n;
  }

  /** The rounded difference and the difference of the rounded values are at
      most one step apart. */
  lemma RoundDifference(a: real, b: real)
    ensures Abs((Round(a) - Round(b)) - Round(a - b)) <= 0.0001
  {
    RoundWithin(a);
    RoundWithin(b);
    RoundWithin(a - b);
    var i, j, k := RoundHalfAway(a * 10000.0), RoundHalfAway(b * 10000.0), RoundHalfAway((a - b) * 10000.0);
    assert Abs((i - j - k) as real / 10000.0) <= 0.00015;
    assert -1 <= i - j - k <= 1;
  }

  function Rounded<T>(f: T -> real): T -> real {
    x => Round(f(x))
  }

  lemma {:induction false} RoundedSumError<T>(xs: seq<T>, f: T -> real)
    ensures Abs(Sum(xs, f) - Sum(xs, Rounded(f))) <= |xs| as real * 0.00005
  {
    if xs != [] {
      RoundedSumError(xs[..|xs| - 1], f);
      RoundWithin(f(xs[|xs| - 1]));
    }
  }

  /** A rounded total and the sum of the rounded summands. */
  lemma RoundedTotalError<T>(xs: seq<T>, f: T -> real)
    ensures Abs(Round(Sum(xs, f)) - Sum(xs, Rounded(f))) <= (|xs| + 1) as real * 0.00005
  {
    RoundedSumError(xs, f);
    RoundWithin(Sum(xs, f));
  }
}
