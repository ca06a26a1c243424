/** The string operations the service relies on: trimming, case mapping, the
    currency normal form, ':'-joined keys and the order used to break ties.
    White space and letters are the ASCII ones. */
module Text {

  // ----- Trimming and case -----

  predicate IsSpace(c: char) {
    c == ' ' || ('\t' <= c <= '\r')
  }

  function UpperChar(c: char): char {
    if 'a' <= c <= 'z' then (c as int - 32) as char else c
  }

  function LowerChar(c: char): char {
    if 'A' <= c <= 'Z' then (c as int + 32) as char else c
  }

  function Upper(s: string): (r: string)
    ensures |r| == |s|
  {
    seq(|s|, i requires 0 <= i < |s| => UpperChar(s[i]))
  }

  function Lower(s: string): (r: string)
    ensures |r| == |s|
  {
    seq(|s|, i requires 0 <= i < |s| => LowerChar(s[i]))
  }

  function TrimLeft(s: string): string {
    if s != [] && IsSpace(s[0]) then TrimLeft(s[1..]) else s
  }

  function TrimRight(s: string): string {
    if s != [] && IsSpace(s[|s| - 1]) then TrimRight(s[..|s| - 1]) else s
  }

  function Trim(s: string): string {
    TrimRight(TrimLeft(s))
  }

  predicate Trimmed(s: string) {
    s == [] || (!IsSpace(s[0]) && !IsSpace(s[|s| - 1]))
  }

  lemma {:induction false} TrimLeftEdge(s: string)
    ensures TrimLeft(s) == [] || !IsSpace(TrimLeft(s)[0])
  {
    if s != [] && IsSpace(s[0]) { TrimLeftEdge(s[1..]); }
  }

  lemma {:induction false} TrimRightEdge(s: string)
    requires s == [] || !IsSpace(s[0])
    ensures Trimmed(TrimRight(s))
  {
    if s != [] && IsSpace(s[|s| - 1]) { TrimRightEdge(s[..|s| - 1]); }
  }

  lemma TrimIsTrimmed(s: string)
    ensures Trimmed(Trim(s))
    ensures Trimmed(s) ==> Trim(s) == s
  {
    TrimLeftEdge(s);
    TrimRightEdge(TrimLeft(s));
  }

  /** Trimming cuts the white space off both ends and nothing else. */
  lemma {:induction false} TrimLeftCuts(s: string) returns (start: nat)
    ensures start <= |s| && TrimLeft(s) == s[start..]
    ensures forall i :: 0 <= i < start ==> s[i] == ' ' || '\t' <= s[i] <= '\r'
  {
    start := 0;
    if s != [] && IsSpace(s[0]) {
      var rest := TrimLeftCuts(s[1..]);
      start := rest + 1;
      assert forall i :: 0 < i < start ==> s[i] == s[1..][i - 1];
    }
  }

  lemma {:induction false} TrimRightCuts(s: string) returns (end: nat)
    ensures end <= |s| && TrimRight(s) == s[..end]
    ensures forall i :: end <= i < |s| ==> s[i] == ' ' || '\t' <= s[i] <= '\r'
  {
    end := |s|;
    if s != [] && IsSpace(s[|s| - 1]) {
      end := TrimRightCuts(s[..|s| - 1]);
      assert forall i :: end <= i < |s| - 1 ==> s[i] == s[..|s| - 1][i];
    }
  }

  lemma TrimCuts(s: string) returns (start: nat, end: nat)
    ensures start <= end <= |s| && Trim(s) == s[start..end]
    ensures forall i :: 0 <= i < start || end <= i < |s| ==> s[i] == ' ' || '\t' <= s[i] <= '\r'
    ensures start < end ==> s[start] != ' ' && !('\t' <= s[start] <= '\r')
    ensures start < end ==> s[end - 1] != ' ' && !('\t' <= s[end - 1] <= '\r')
  {
    start := TrimLeftCuts(s);
    var length := TrimRightCuts(s[start..]);
    end := start + length;
    TrimIsTrimmed(s);
    assert forall i :: end <= i < |s| ==> s[i] == s[start..][i - start];
  }

  // ----- The currency normal form -----

  /** The normal form both the engine and the provider compare currencies in. */
  function Normalize(code: string): string {
    Upper(Trim(code))
  }

  /** What it takes for a string to be its own normal form. */
  predicate IsNormal(s: string) {
    Trimmed(s) && forall i :: 0 <= i < |s| ==> UpperChar(s[i]) == s[i]
  }

  lemma NormalizeIsNormal(s: string)
    ensures IsNormal(Normalize(s))
  {
    TrimIsTrimmed(s);
  }

  lemma NormalIffFixed(s: string)
    ensures IsNormal(s) <==> Normalize(s) == s
  {
    NormalizeIsNormal(s);
    if IsNormal(s) {
      TrimIsTrimmed(s);
      assert Upper(s) == s;
    }
  }

  lemma NormalizeIdempotent(s: string)
    ensures Normalize(Normalize(s)) == Normalize(s)
  {
    NormalizeIsNormal(s);
    NormalIffFixed(Normalize(s));
  }

  /** The normal form is what is left between the white space of both ends, with
      the small letters replaced by the capital ones. */
  lemma NormalizeSpelledOut(s: string) returns (start: nat, end: nat)
    ensures start <= end <= |s| && |Normalize(s)| == end - start
    ensures forall i :: 0 <= i < start || end <= i < |s| ==> s[i] == ' ' || '\t' <= s[i] <= '\r'
    ensures start < end ==> s[start] != ' ' && !('\t' <= s[start] <= '\r')
    ensures start < end ==> s[end - 1] != ' ' && !('\t' <= s[end - 1] <= '\r')
    ensures forall i :: 0 <= i < end - start ==>
              var c := s[start + i];
              Normalize(s)[i] == if 'a' <= c <= 'z' then 'A' + (c - 'a') else c
  {
    start, end := TrimCuts(s);
    hide Trim;
  }

  // ----- Keys joined by a colon -----

  function Join(a: string, b: string): string {
    a + ":" + b
  }

  /** Another colon of the joined string at which it also splits into two
      strings in normal form. */
  ghost predicate SplitsElsewhere(a: string, b: string) {
    var k := Join(a, b);
    exists j | 0 <= j < |k| && k[j] == ':' ::
      j != |a| && IsNormal(k[..j]) && IsNormal(k[j + 1..])
  }

  lemma JoinSplits(a: string, b: string)
    ensures Join(a, b)[..|a|] == a && Join(a, b)[|a| + 1..] == b && Join(a, b)[|a|] == ':'
  {
  }

  /** (c, d) is another pair of normal forms with the same joined key as (a, b). */
  ghost predicate Collides(a: string, b: string, c: string, d: string) {
    IsNormal(c) && IsNormal(d) && Join(c, d) == Join(a, b) && (c, d) != (a, b)
  }

  lemma SplitElsewhere(a: string, b: string) returns (c: string, d: string)
    requires SplitsElsewhere(a, b)
    ensures Collides(a, b, c, d)
  {
    hide IsNormal;
    var k := Join(a, b);
    var j :| 0 <= j < |k| && k[j] == ':' && j != |a| && IsNormal(k[..j]) && IsNormal(k[j + 1..]);
    c, d := k[..j], k[j + 1..];
    assert |c| != |a|;
  }

  lemma OtherPairSplits(a: string, b: string, c: string, d: string)
    requires Collides(a, b, c, d)
    ensures SplitsElsewhere(a, b)
  {
    hide IsNormal;
    JoinSplits(a, b);
    JoinSplits(c, d);
    var k := Join(a, b);
    assert k[|c|] == ':' && k[..|c|] == c && k[|c| + 1..] == d;
    assert |c| != |a|;
  }

  /** A joined key stands for one pair of normal forms only, exactly when it
      cannot be cut at another of its colons. */
  lemma JoinUniqueIff(a: string, b: string)
    ensures SplitsElsewhere(a, b) <==> exists c, d :: Collides(a, b, c, d)
  {
    hide Collides, SplitsElsewhere;
    if SplitsElsewhere(a, b) {
      var c, d := SplitElsewhere(a, b);
    }
    if c, d :| Collides(a, b, c, d) {
      OtherPairSplits(a, b, c, d);
    }
  }

  /** In particular, colon-free codes are never confused. */
  lemma JoinInjectiveWithoutColons(a: string, b: string, c: string, d: string)
    requires ':' !in a && ':' !in c
    requires Join(a, b) == Join(c, d)
    ensures a == c && b == d
  {
    JoinSplits(a, b);
    JoinSplits(c, d);
  }

  // ----- The order on identifiers and currency codes -----

  predicate Less(a: string, b: string) {
    b != [] && (a == [] || a[0] < b[0] || (a[0] == b[0] && Less(a[1..], b[1..])))
  }

  lemma {:induction false} LessIrreflexive(a: string)
    ensures !Less(a, a)
  {
    if a != [] { LessIrreflexive(a[1..]); }
  }

  lemma {:induction false} LessTransitive(a: string, b: string, c: string)
    requires Less(a, b) && Less(b, c)
    ensures Less(a, c)
  {
    if a != [] && a[0] == b[0] == c[0] { LessTransitive(a[1..], b[1..], c[1..]); }
  }

  lemma {:induction false} LessTotal(a: string, b: string)
    ensures a == b || Less(a, b) || Less(b, a)
  {
    if a != [] && b != [] && a[0] == b[0] {
      LessTotal(a[1..], b[1..]);
      assert a == [a[0]] + a[1..] && b == [b[0]] + b[1..];
    }
  }

  /** At the first difference the smaller character decides, and a proper prefix
      comes first. */
  ghost predicate IsBefore(a: string, b: string, k: nat) {
    && k <= |a| && k < |b| && a[..k] == b[..k]
    && (k == |a| || a[k] < b[k])
  }

  lemma {:induction false} LessIff(a: string, b: string)
    ensures Less(a, b) <==> exists k: nat :: IsBefore(a, b, k)
  {
    if a != [] && b != [] && a[0] == b[0] {
      LessIff(a[1..], b[1..]);
      if k: nat :| IsBefore(a[1..], b[1..], k) {
        assert a[..k + 1] == [a[0]] + a[1..][..k] && b[..k + 1] == [b[0]] + b[1..][..k];
        assert IsBefore(a, b, k + 1);
      }
      if k: nat :| IsBefore(a, b, k) {
        assert k > 0;
        assert a[1..][..k - 1] == a[..k][1..] && b[1..][..k - 1] == b[..k][1..];
        assert IsBefore(a[1..], b[1..], k - 1);
      }
    } else {
      assert b != [] && (a == [] || a[0] < b[0]) ==> IsBefore(a, b, 0);
      if k: nat :| IsBefore(a, b, k) {
        assert k > 0 ==> a[..k][0] == b[..k][0];
      }
    }
  }
}
