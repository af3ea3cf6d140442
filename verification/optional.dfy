/** Failure-compatible wrappers shared by every module of the model. */
module Optional {

  /** A value that may be absent: JavaScript's `null` / `undefined` results. */
  datatype Option<+T> = None | Some(value: T) {

    /** The wrapped value, or `default` when absent (JavaScript's `??`). */
    function GetOr(default: T): T {
      match this
      case Some(v) => v
      case None => default
    }
  }

  /** How many of `xs` are present. */
  function CountSome<T>(xs: seq<Option<T>>): nat {
    if xs == [] then 0 else (if xs[0].Some? then 1 else 0) + CountSome(xs[1..])
  }

  /** The present values of `xs`, in order: what a loop that skips the absent ones collects. */
  function Somes<T>(xs: seq<Option<T>>): (r: seq<T>)
    ensures |r| == CountSome(xs)
  {
    if xs == [] then [] else (if xs[0].Some? then [xs[0].value] else []) + Somes(xs[1..])
  }

  /** A value is kept exactly when it is present somewhere in `xs`. */
  lemma {:induction false} SomesMember<T>(xs: seq<Option<T>>, x: T)
    ensures x in Somes(xs) <==> Some(x) in xs
  {
    if xs != [] {
      SomesMember(xs[1..], x);
      assert xs == [xs[0]] + xs[1..];
    }
  }

  lemma {:induction false} CountSomeAppend<T>(xs: seq<Option<T>>, ys: seq<Option<T>>)
    ensures CountSome(xs + ys) == CountSome(xs) + CountSome(ys)
  {
    if xs != [] {
      CountSomeAppend(xs[1..], ys);
      assert (xs + ys)[1..] == xs[1..] + ys;
    } else {
      assert xs + ys == ys;
    }
  }

  /** Filtering a concatenation filters each part. */
  lemma {:induction false} SomesAppend<T>(xs: seq<Option<T>>, ys: seq<Option<T>>)
    ensures Somes(xs + ys) == Somes(xs) + Somes(ys)
  {
    if xs != [] {
      SomesAppend(xs[1..], ys);
      assert (xs + ys)[1..] == xs[1..] + ys;
    } else {
      assert xs + ys == ys;
    }
  }

  /**
   * Order is kept: the value present at position `i` is the result's entry
   * after the values present before `i`.
   */
  lemma SomesAt<T>(xs: seq<Option<T>>, i: int)
    requires 0 <= i < |xs| && xs[i].Some?
    ensures CountSome(xs[..i]) < |Somes(xs)|
    ensures Somes(xs)[CountSome(xs[..i])] == xs[i].value
  {
    assert xs == xs[..i] + ([xs[i]] + xs[i + 1..]);
    SomesAppend(xs[..i], [xs[i]] + xs[i + 1..]);
    SomesAppend([xs[i]], xs[i + 1..]);
    assert Somes([xs[i]]) == [xs[i].value];
  }

  /** The outcome of an operation that may throw. */
  datatype Result<+T, +E> = Ok(value: T) | Err(error: E)
}
