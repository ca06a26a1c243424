/** The exponential backoff on 64-bit durations, with the wrap-around of its
    doubling, and the total wait of a retry loop. */
module Backoff {

  const MIN_INT64: int := -0x8000_0000_0000_0000
  const MAX_INT64: int := 0x7fff_ffff_ffff_ffff
  const DEFAULT_DELAY: int := 100_000_000

  type Duration = d: int | MIN_INT64 <= d <= MAX_INT64 witness 0

  /** Doubling as the machine does it. */
  function Double(d: Duration): Duration {
    if 2 * d > MAX_INT64 then 2 * d - 0x1_0000_0000_0000_0000
    else if 2 * d < MIN_INT64 then 2 * d + 0x1_0000_0000_0000_0000
    else 2 * d
  }

  function Pow2(n: nat): nat {
    if n == 0 then 1 else 2 * Pow2(n - 1)
  }

  function Min(a: int, b: int): int {
    if a < b then a else b
  }

  method Clamp(value: Duration, max: Duration) returns (r: Duration)
    ensures r > 0 && (max > 0 ==> r <= max)
    ensures r == Clamped(value, max)
  {
    r := value;
    if r <= 0 {
      r := DEFAULT_DELAY;
    }
    if max > 0 && r > max {
      r := max;
    }
  }

  function Clamped(value: Duration, max: Duration): Duration {
    var positive := if value <= 0 then DEFAULT_DELAY else value;
    if max > 0 && positive > max then max else positive
  }

  /** A clamped delay is a wait: positive, within a positive maximum, and the
      value itself if that is one already, the default of 100 ms if it is not
      positive; clamping again changes nothing. */
  lemma ClampedIsInRange(value: Duration, max: Duration)
    ensures var r := Clamped(value, max);
            && r > 0
            && (max > 0 ==> r <= max)
            && (value > 0 && (max > 0 ==> value <= max) <==> r == value)
            && (value <= 0 ==> r == if 0 < max < 100_000_000 then max else 100_000_000)
            && (0 < max <= value ==> r == max)
            && Clamped(r, max) == r
  {
  }

  /** The delay after `n` doublings, or the early exit at the maximum. */
  function Delay(initial: Duration, max: Duration, n: nat): (Duration, bool) {
    if n == 0 then (initial, false)
    else
      var (d, done) := Delay(initial, max, n - 1);
      if done then (d, true) else if Double(d) >= max then (max, true) else (Double(d), false)
  }

  function DurationSpec(initial: Duration, max: Duration, attempt: int): Duration {
    Clamped(Delay(initial, max, if attempt <= 1 then 0 else attempt - 1).0, max)
  }

  /** The delay before the next attempt; attempts count from one. */
  method DurationOf(initial: Duration, max: Duration, attempt: int) returns (r: Duration)
    ensures r == DurationSpec(initial, max, attempt)
  {
    if attempt <= 1 {
      r := Clamp(initial, max);
      return;
    }
    var delay := initial;
    for i := 1 to attempt
      invariant Delay(initial, max, i - 1) == (delay, false)
    {
      delay := Double(delay);
      if delay >= max {
        ExitPersists(initial, max, i, attempt - 1);
        r := Clamp(max, max);
        return;
      }
    }
    r := Clamp(delay, max);
  }

  lemma {:induction false} ExitPersists(initial: Duration, max: Duration, m: nat, n: nat)
    requires Delay(initial, max, m).1 && m <= n
    ensures Delay(initial, max, n) == Delay(initial, max, m)
    decreases n
  {
    if m < n { ExitPersists(initial, max, m, n - 1); }
  }

  // ----- Every delay, by one multiplication -----

  /** The 64-bit value of an integer. */
  function Wrap(x: int): Duration {
    (x + 0x8000_0000_0000_0000) % 0x1_0000_0000_0000_0000 - 0x8000_0000_0000_0000
  }

  lemma WrapUnique(x: int, d: Duration, q: int)
    requires d == x + q * 0x1_0000_0000_0000_0000
    ensures Wrap(x) == d
  {
  }

  lemma WrapShifts(x: int) returns (q: int)
    ensures Wrap(x) == x + q * 0x1_0000_0000_0000_0000
  {
    q := -((x + 0x8000_0000_0000_0000) / 0x1_0000_0000_0000_0000);
  }

  lemma WrapDouble(x: int)
    ensures Double(Wrap(x)) == Wrap(2 * x)
  {
    hide Wrap;
    var q := WrapShifts(x);
    var d := Wrap(x);
    WrapUnique(2 * x, Double(d),
      if 2 * d > MAX_INT64 then 2 * q - 1 else if 2 * d < MIN_INT64 then 2 * q + 1 else 2 * q);
  }

  /** One of the first `n` doublings arrives at the maximum. */
  ghost predicate Arrives(initial: Duration, max: Duration, n: nat) {
    exists k: nat :: 1 <= k <= n && Wrap(initial * Pow2(k)) >= max
  }

  lemma ArrivesNext(initial: Duration, max: Duration, n: nat)
    ensures Arrives(initial, max, n + 1) <==>
            Arrives(initial, max, n) || Wrap(initial * Pow2(n + 1)) >= max
  {
    hide Wrap, Pow2;
    if k: nat :| 1 <= k <= n && Wrap(initial * Pow2(k)) >= max {
      assert 1 <= k <= n + 1;
    }
  }

  lemma WrappedNext(initial: Duration, n: nat)
    ensures Double(Wrap(initial * Pow2(n))) == Wrap(initial * Pow2(n + 1))
  {
    ScaledStep(initial, n);
    hide Wrap, Double, Pow2;
    WrapDouble(initial * Pow2(n));
  }

  lemma {:induction false} DelayIsWrapped(initial: Duration, max: Duration, n: nat)
    ensures Delay(initial, max, n) ==
            if Arrives(initial, max, n) then (max, true) else (Wrap(initial * Pow2(n)), false)
  {
    if n == 0 {
      assert initial * Pow2(0) == initial;
      WrapUnique(initial, initial, 0);
      hide Wrap;
    } else {
      DelayIsWrapped(initial, max, n - 1);
      WrappedNext(initial, n - 1);
      ArrivesNext(initial, max, n - 1);
      hide Wrap, Double, Pow2, Arrives;
    }
  }

  /** The delay for every setting, sign and attempt: the maximum once a doubling has
      arrived there, and before that the initial delay times a power of two as 64
      bits hold it; then 100 ms instead of what is not positive, and at most a
      positive maximum. */
  lemma DurationSpelledOut(initial: Duration, max: Duration, attempt: int)
    ensures var n := if attempt > 1 then attempt - 1 else 0;
            var raw := if Arrives(initial, max, n) then max else Wrap(initial * Pow2(n));
            var wait := if raw > 0 then raw else 100_000_000;
            DurationSpec(initial, max, attempt) == if 0 < max < wait then max else wait
  {
    hide Delay, Wrap, Pow2, Arrives;
    DelayIsWrapped(initial, max, if attempt > 1 then attempt - 1 else 0);
  }

  // ----- The closed form, and exactly when it holds -----

  /** What the delays are meant to be: doubling from the initial delay, capped. */
  function Ideal(initial: int, max: int, attempt: nat): int
    requires attempt >= 1
  {
    Min(initial * Pow2(attempt - 1), max)
  }

  /** The first delay, and every later one below the maximum, can be doubled. */
  ghost predicate NeverOverflows(initial: int, max: int) {
    && 2 * initial <= MAX_INT64
    && forall k: nat :: initial * Pow2(k) < max ==> 2 * (initial * Pow2(k)) <= MAX_INT64
  }

  lemma {:induction false} Pow2Monotone(m: nat, n: nat)
    requires m <= n
    ensures 1 <= Pow2(m) <= Pow2(n)
    decreases n
  {
    if m < n { Pow2Monotone(m, n - 1); } else if n > 0 { Pow2Monotone(m - 1, n - 1); }
  }

  lemma ScaledMonotone(initial: nat, m: nat, n: nat)
    requires m <= n
    ensures initial <= initial * Pow2(m) <= initial * Pow2(n)
  {
    Pow2Monotone(m, n);
    assert initial * (Pow2(m) - 1) >= 0;
    assert initial * (Pow2(n) - Pow2(m)) >= 0;
  }

  lemma ScaledStep(initial: int, n: nat)
    ensures initial * Pow2(n + 1) == 2 * (initial * Pow2(n))
  {
  }

  /** One doubling short of overflow. */
  lemma DelayStep(initial: Duration, max: Duration, n: nat)
    requires var (d, done) := Delay(initial, max, n); !done && 0 < d && 2 * d <= MAX_INT64
    ensures var d := Delay(initial, max, n).0;
            Delay(initial, max, n + 1) == if 2 * d >= max then (max, true) else (2 * d as Duration, false)
  {
  }

  lemma {:induction false} DelayClosedForm(initial: Duration, max: Duration, n: nat)
    requires 0 < initial <= max && NeverOverflows(initial, max)
    ensures Delay(initial, max, n).0 == Min(initial * Pow2(n), max)
    ensures !Delay(initial, max, n).1 ==> initial * Pow2(n) < max || n == 0
    ensures Delay(initial, max, n).1 ==> initial * Pow2(n) >= max
  {
    if n > 0 {
      DelayClosedForm(initial, max, n - 1);
      ScaledStep(initial, n - 1);
      ScaledMonotone(initial, n - 1, n);
      if !Delay(initial, max, n - 1).1 {
        DoublableNext(initial, max, n - 1);
        hide NeverOverflows, Double, Pow2;
        DelayStep(initial, max, n - 1);
      }
    }
  }

  lemma DoublableNext(initial: Duration, max: Duration, n: nat)
    requires 0 < initial <= max && NeverOverflows(initial, max) && (initial * Pow2(n) < max || n == 0)
    ensures Min(initial * Pow2(n), max) == initial * Pow2(n) && 2 * (initial * Pow2(n)) <= MAX_INT64
  {
    assert n == 0 ==> initial * Pow2(0) == initial;
  }

  /** The delay that is too large to double turns negative. */
  lemma WrapsBelowMax(d: Duration, max: Duration)
    requires d > 0 && 2 * d > MAX_INT64 && max > 0
    ensures Double(d) < 0 && Double(d) < max
  {
  }

  /** Until the first delay that cannot be doubled, the delays double. */
  lemma {:induction false} DelayBefore(initial: Duration, max: Duration, n: nat)
    requires 0 < initial <= max && (n == 0 || initial * Pow2(n) < max)
    requires forall k: nat :: k < n ==> 2 * (initial * Pow2(k)) <= MAX_INT64
    ensures MIN_INT64 <= initial * Pow2(n) <= MAX_INT64
    ensures Delay(initial, max, n) == (initial * Pow2(n), false)
  {
    if n == 0 {
      assert initial * Pow2(0) == initial;
    } else {
      ScaledStep(initial, n - 1);
      ScaledMonotone(initial, n - 1, n);
      DelayBefore(initial, max, n - 1);
      DelayStep(initial, max, n - 1);
    }
  }

  /** At it, the next delay falls back to the default. */
  lemma OverflowBreaksClosedForm(initial: Duration, max: Duration, k: nat)
    requires 0 < initial <= max && (k == 0 || initial * Pow2(k) < max)
    requires 2 * (initial * Pow2(k)) > MAX_INT64
    requires forall j: nat :: j < k ==> 2 * (initial * Pow2(j)) <= MAX_INT64
    ensures DurationSpec(initial, max, k + 2) == 100_000_000 != Ideal(initial, max, k + 2)
  {
    DelayBefore(initial, max, k);
    ScaledMonotone(initial, 0, k);
    ScaledStep(initial, k);
    var d := Delay(initial, max, k).0;
    WrapsBelowMax(d, max);
    assert Delay(initial, max, k + 1) == (Double(d), false);
  }

  lemma {:induction false} FirstOverflow(initial: Duration, k: nat) returns (m: nat)
    requires 0 < initial && 2 * (initial * Pow2(k)) > MAX_INT64
    ensures m <= k && 2 * (initial * Pow2(m)) > MAX_INT64
    ensures forall j: nat :: j < m ==> 2 * (initial * Pow2(j)) <= MAX_INT64
  {
    if j: nat :| j < k && 2 * (initial * Pow2(j)) > MAX_INT64 {
      m := FirstOverflow(initial, j);
    } else {
      m := k;
    }
  }

  lemma FirstUndoublable(initial: Duration, max: Duration) returns (m: nat)
    requires 0 < initial <= max && !NeverOverflows(initial, max)
    ensures (m == 0 || initial * Pow2(m) < max) && 2 * (initial * Pow2(m)) > MAX_INT64
    ensures forall j: nat :: j < m ==> 2 * (initial * Pow2(j)) <= MAX_INT64
  {
    assert initial * Pow2(0) == initial;
    var k: nat :| 2 * (initial * Pow2(k)) > MAX_INT64 && (k == 0 || initial * Pow2(k) < max);
    m := FirstOverflow(initial, k);
    if m > 0 { ScaledMonotone(initial, m, k); }
  }

  ghost predicate FollowsIdeal(initial: Duration, max: Duration) {
    forall attempt: nat :: attempt >= 1 ==> DurationSpec(initial, max, attempt) == Ideal(initial, max, attempt)
  }

  /** The delays follow the doubling-and-capping ideal for every attempt exactly
      when none of them overflows. */
  lemma ClosedFormIff(initial: Duration, max: Duration)
    requires 0 < initial <= max
    ensures FollowsIdeal(initial, max) <==> NeverOverflows(initial, max)
  {
    if NeverOverflows(initial, max) {
      forall attempt: nat | attempt >= 1 ensures DurationSpec(initial, max, attempt) == Ideal(initial, max, attempt) {
        DelayClosedForm(initial, max, attempt - 1);
        ScaledMonotone(initial, 0, attempt - 1);
      }
    } else {
      var m := FirstUndoublable(initial, max);
      OverflowBreaksClosedForm(initial, max, m);
    }
  }

  /** With a maximum of at most 2^62 only the initial delay 2^62 overflows. */
  lemma LargeMaximumIff(initial: Duration, max: Duration)
    requires 0 < initial <= max <= 0x4000_0000_0000_0000
    ensures FollowsIdeal(initial, max) <==> initial < 0x4000_0000_0000_0000
  {
    ClosedFormIff(initial, max);
  }

  /** Whatever the settings and however the doubling wraps, every delay is
      positive and within a positive maximum. */
  lemma DurationsAreInRange(initial: Duration, max: Duration, attempt: int)
    ensures DurationSpec(initial, max, attempt) > 0
    ensures max > 0 ==> DurationSpec(initial, max, attempt) <= max
  {
    hide Delay;
    ClampedIsInRange(Delay(initial, max, if attempt <= 1 then 0 else attempt - 1).0, max);
  }

  ghost predicate NeverShrinks(initial: Duration, max: Duration) {
    forall a: nat, b: nat :: 1 <= a <= b ==> DurationSpec(initial, max, a) <= DurationSpec(initial, max, b)
  }

  lemma IdealNeverShrinks(initial: Duration, max: Duration, a: nat, b: nat)
    requires 0 < initial <= max && FollowsIdeal(initial, max) && 1 <= a <= b
    ensures DurationSpec(initial, max, a) <= DurationSpec(initial, max, b)
  {
    assert DurationSpec(initial, max, a) == Ideal(initial, max, a);
    assert DurationSpec(initial, max, b) == Ideal(initial, max, b);
    ScaledMonotone(initial, a - 1, b - 1);
  }

  /** The delay that cannot be doubled is followed by a shorter one. */
  lemma OverflowShrinks(initial: Duration, max: Duration, k: nat)
    requires 0 < initial <= max && (k == 0 || initial * Pow2(k) < max)
    requires 2 * (initial * Pow2(k)) > MAX_INT64
    requires forall j: nat :: j < k ==> 2 * (initial * Pow2(j)) <= MAX_INT64
    ensures DurationSpec(initial, max, k + 2) < DurationSpec(initial, max, k + 1)
  {
    assert initial * Pow2(0) == initial;
    DelayBefore(initial, max, k);
    hide Delay;
    OverflowBreaksClosedForm(initial, max, k);
  }

  /** The delays never shrink exactly when none of them overflows. */
  lemma NeverShrinksIff(initial: Duration, max: Duration)
    requires 0 < initial <= max
    ensures NeverShrinks(initial, max) <==> NeverOverflows(initial, max)
  {
    ClosedFormIff(initial, max);
    if NeverOverflows(initial, max) {
      hide DurationSpec, FollowsIdeal;
      forall a: nat, b: nat | 1 <= a <= b ensures DurationSpec(initial, max, a) <= DurationSpec(initial, max, b) {
        IdealNeverShrinks(initial, max, a, b);
      }
    } else {
      var m := FirstUndoublable(initial, max);
      hide DurationSpec;
      OverflowShrinks(initial, max, m);
    }
  }

  // ----- The waits of a retry loop -----

  /** The waits between `attempts` attempts. */
  function TotalWait(initial: Duration, max: Duration, attempts: nat): int {
    if attempts <= 1 then 0 else TotalWait(initial, max, attempts - 1) + DurationSpec(initial, max, attempts - 1)
  }

  lemma AddWait(initial: int, max: int, n: nat, p: nat, wait: int, delay: int)
    requires wait <= Min((p - 1) * initial, n * max) && delay <= Min(initial * p, max)
    ensures wait + delay <= Min((2 * p - 1) * initial, (n + 1) * max)
  {
    assert (2 * p - 1) * initial == (p - 1) * initial + initial * p;
    assert (n + 1) * max == n * max + max;
  }

  /** No delay exceeds the ideal, overflow or not: past an overflow the ideal is
      the maximum, which caps every delay. */
  lemma AtMostIdeal(initial: Duration, max: Duration, attempt: nat)
    requires 0 < initial <= max && attempt >= 1
    ensures DurationSpec(initial, max, attempt) <= Min(initial * Pow2(attempt - 1), max)
  {
    var n := attempt - 1;
    DurationsAreInRange(initial, max, attempt);
    if initial * Pow2(n) < max {
      forall k: nat | k < n ensures 2 * (initial * Pow2(k)) <= MAX_INT64 {
        ScaledStep(initial, k);
        ScaledMonotone(initial, k + 1, n);
      }
      ScaledMonotone(initial, 0, n);
      DelayBefore(initial, max, n);
    }
  }

  lemma NoWait(initial: int, max: int)
    ensures Min((Pow2(0) - 1) * initial, 0 * max) == 0
  {
  }

  /** The whole wait of a retry loop, for every setting the configuration accepts. */
  lemma {:induction false} TotalWaitBound(initial: Duration, max: Duration, attempts: nat)
    requires 0 < initial <= max && attempts >= 1
    ensures TotalWait(initial, max, attempts) <= Min((Pow2(attempts - 1) - 1) * initial, (attempts - 1) * max)
  {
    hide DurationSpec, Min;
    if attempts == 1 {
      assert Min((Pow2(0) - 1) * initial, 0 * max) == 0 by { NoWait(initial, max); }
    } else {
      TotalWaitBound(initial, max, attempts - 1);
      AtMostIdeal(initial, max, attempts - 1);
      AddWait(initial, max, attempts - 2, Pow2(attempts - 2), TotalWait(initial, max, attempts - 1),
        DurationSpec(initial, max, attempts - 1));
    }
  }
}
