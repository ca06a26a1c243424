/** Optional values, results, and a batch of results that stops at its first error. */
module Outcomes {
  import opened Folds

  datatype Option<+T> = None | Some(value: T)

  datatype Result<+T, +E> = Ok(value: T) | Err(error: E)

  /** The values of a batch in order, or the error of its first failing element. */
  function AllOk<T, U, E>(xs: seq<T>, f: T -> Result<U, E>): Result<seq<U>, E> {
    if xs == [] then Ok([])
    else
      match AllOk(xs[..|xs| - 1], f)
      case Err(e) => Err(e)
      case Ok(us) =>
        match f(xs[|xs| - 1])
        case Err(e) => Err(e)
        case Ok(u) => Ok(us + [u])
  }

  lemma AllOkSnoc<T, U, E>(xs: seq<T>, i: nat, f: T -> Result<U, E>)
    requires i < |xs| && AllOk(xs[..i], f).Ok? && f(xs[i]).Ok?
    ensures AllOk(xs[..i + 1], f) == Ok(AllOk(xs[..i], f).value + [f(xs[i]).value])
  {
    assert xs[..i + 1][..i] == xs[..i];
  }

  lemma {:induction false} FirstErrorWins<T, U, E>(xs: seq<T>, i: nat, f: T -> Result<U, E>)
    requires i < |xs| && AllOk(xs[..i], f).Ok? && f(xs[i]).Err?
    ensures AllOk(xs, f) == Err(f(xs[i]).error)
    decreases |xs|
  {
    if i < |xs| - 1 {
      assert xs[..|xs| - 1][..i] == xs[..i];
      FirstErrorWins(xs[..|xs| - 1], i, f);
    }
  }

  lemma {:induction false} FirstErrorAt<T, U, E>(xs: seq<T>, f: T -> Result<U, E>) returns (i: nat)
    requires AllOk(xs, f).Err?
    ensures i < |xs| && f(xs[i]) == Err(AllOk(xs, f).error)
    ensures forall j: nat :: j < i ==> f(xs[j]).Ok?
  {
    var front := xs[..|xs| - 1];
    if AllOk(front, f).Err? {
      i := FirstErrorAt(front, f);
      assert forall j: nat :: j < |front| ==> xs[j] == front[j];
    } else {
      i := |xs| - 1;
      AllOkPointwise(front, f);
      assert forall j: nat :: j < |front| ==> xs[j] == front[j];
    }
  }

  lemma {:induction false} AllOkPointwise<T, U, E>(xs: seq<T>, f: T -> Result<U, E>)
    ensures AllOk(xs, f).Ok? <==> forall i :: 0 <= i < |xs| ==> f(xs[i]).Ok?
    ensures AllOk(xs, f).Ok? ==>
              && |AllOk(xs, f).value| == |xs|
              && forall i :: 0 <= i < |xs| ==> f(xs[i]) == Ok(AllOk(xs, f).value[i])
  {
    if xs != [] {
      var front := xs[..|xs| - 1];
      AllOkPointwise(front, f);
      assert forall i :: 0 <= i < |front| ==> front[i] == xs[i];
    }
  }

  function ValueOr<T, U, E>(f: T -> Result<U, E>, default: U): T -> U {
    x => match f(x) case Ok(u) => u case Err(_) => default
  }

  /** A batch succeeds in one order if it does in another, with the same values
      up to that order. */
  lemma AllOkPermuted<T, U, E>(xs: seq<T>, ys: seq<T>, f: T -> Result<U, E>)
    requires multiset(xs) == multiset(ys) && AllOk(xs, f).Ok?
    ensures AllOk(ys, f).Ok? && multiset(AllOk(xs, f).value) == multiset(AllOk(ys, f).value)
  {
    AllOkPointwise(xs, f);
    AllOkPointwise(ys, f);
    SameElements(xs, ys);
    forall j | 0 <= j < |ys| ensures f(ys[j]).Ok? {
      assert ys[j] in xs;
    }
    if xs != [] {
      var g := ValueOr(f, AllOk(xs, f).value[0]);
      MapPermuted(xs, ys, g);
      assert AllOk(xs, f).value == MapSeq(xs, g) && AllOk(ys, f).value == MapSeq(ys, g);
    }
  }
}
