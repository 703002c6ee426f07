/** Optional values, the exceptions the ORM raises, and a failure-compatible
    Result so that a raised exception is an ordinary return value. */
module Wrappers {

  datatype Option<T> = None | Some(value: T)

  /** The Python exceptions the query layer raises. `Unsupported` marks inputs
      whose Python behaviour depends on running a query (see README). */
  datatype Error =
    | TypeError(message: string)
    | KeyError(key: string)
    | ValueError(message: string)
    | IndexError
    | AttributeError(name: string)
    | Unsupported(message: string)

  datatype Result<T> = Ok(value: T) | Err(error: Error) {
    predicate IsFailure() {
      Err?
    }

    function PropagateFailure<U>(): Result<U>
      requires Err?
    {
      Err(error)
    }

    function Extract(): T
      requires Ok?
    {
      value
    }
  }

  /** A loop over `xs` from position `i` on that turns each item into a
      result with `f`, after `acc`; the first item `f` refuses stops it. */
  function MapFrom<T, U>(f: T -> Result<U>, xs: seq<T>, i: nat, acc: seq<U>): Result<seq<U>>
    requires i <= |xs|
    decreases |xs| - i
  {
    if i == |xs| then Ok(acc)
    else
      match f(xs[i])
      case Err(e) => Err(e)
      case Ok(u) => MapFrom(f, xs, i + 1, acc + [u])
  }

  lemma {:induction false} MapFromOk<T, U>(f: T -> Result<U>, xs: seq<T>, i: nat, acc: seq<U>)
    requires i <= |xs|
    ensures MapFrom(f, xs, i, acc).Ok? <==> forall k | i <= k < |xs| :: f(xs[k]).Ok?
    decreases |xs| - i
  {
    if i < |xs| && f(xs[i]).Ok? {
      MapFromOk(f, xs, i + 1, acc + [f(xs[i]).value]);
    }
  }

  lemma {:induction false} MapFromPrefix<T, U>(f: T -> Result<U>, xs: seq<T>, i: nat, acc: seq<U>)
    requires i <= |xs| && MapFrom(f, xs, i, acc).Ok?
    ensures |MapFrom(f, xs, i, acc).value| == |acc| + |xs| - i
    ensures MapFrom(f, xs, i, acc).value[..|acc|] == acc
    decreases |xs| - i
  {
    if i < |xs| {
      var acc' := acc + [f(xs[i]).value];
      MapFromPrefix(f, xs, i + 1, acc');
      var w := MapFrom(f, xs, i + 1, acc').value;
      assert w[..|acc|] == w[..|acc'|][..|acc|];
    }
  }

  lemma {:induction false} MapFromValues<T, U>(f: T -> Result<U>, xs: seq<T>, i: nat, acc: seq<U>)
    requires i <= |xs| && MapFrom(f, xs, i, acc).Ok?
    ensures |MapFrom(f, xs, i, acc).value| == |acc| + |xs| - i
    ensures forall k | i <= k < |xs| :: f(xs[k]) == Ok(MapFrom(f, xs, i, acc).value[|acc| + k - i])
    decreases |xs| - i
  {
    MapFromPrefix(f, xs, i, acc);
    if i < |xs| {
      var acc' := acc + [f(xs[i]).value];
      MapFromValues(f, xs, i + 1, acc');
      MapFromPrefix(f, xs, i + 1, acc');
      var w := MapFrom(f, xs, i + 1, acc').value;
      assert w[|acc|] == w[..|acc'|][|acc|];
    }
  }

  lemma {:induction false} MapFromErr<T, U>(f: T -> Result<U>, xs: seq<T>, i: nat, acc: seq<U>)
    requires i <= |xs| && MapFrom(f, xs, i, acc).Err?
    ensures exists k | i <= k < |xs| :: f(xs[k]) == Err(MapFrom(f, xs, i, acc).error)
    decreases |xs| - i
  {
    if f(xs[i]).Ok? {
      MapFromErr(f, xs, i + 1, acc + [f(xs[i]).value]);
    }
  }

  /** The runs one after another, as `''.join(parts)` or a list extended
      run by run builds them. */
  function Flatten<T>(ps: seq<seq<T>>): seq<T>
  {
    if |ps| == 0 then [] else ps[0] + Flatten(ps[1..])
  }

  lemma {:induction false} FlattenAppend<T>(a: seq<seq<T>>, b: seq<seq<T>>)
    ensures Flatten(a + b) == Flatten(a) + Flatten(b)
    decreases |a|
  {
    if |a| == 0 {
      assert a + b == b;
    } else {
      assert (a + b)[1..] == a[1..] + b;
      FlattenAppend(a[1..], b);
    }
  }

  /** A loop over `xs` from position `i` on that extends two sequences by
      the two runs `f` gives for each item; the first item `f` refuses
      stops it. */
  function GatherFrom<T, A, B>(f: T -> Result<(seq<A>, seq<B>)>, xs: seq<T>, i: nat, a: seq<A>, b: seq<B>): Result<(seq<A>, seq<B>)>
    requires i <= |xs|
    decreases |xs| - i
  {
    if i == |xs| then Ok((a, b))
    else
      match f(xs[i])
      case Err(e) => Err(e)
      case Ok(p) => GatherFrom(f, xs, i + 1, a + p.0, b + p.1)
  }

  /** The first runs `f` gives for the items from position `i` on. */
  function FirstRuns<T, A, B>(f: T -> Result<(seq<A>, seq<B>)>, xs: seq<T>, i: nat): seq<seq<A>>
    requires i <= |xs| && forall k | i <= k < |xs| :: f(xs[k]).Ok?
  {
    seq(|xs| - i, k requires 0 <= k < |xs| - i => f(xs[i + k]).value.0)
  }

  /** The second runs `f` gives for the items from position `i` on. */
  function SecondRuns<T, A, B>(f: T -> Result<(seq<A>, seq<B>)>, xs: seq<T>, i: nat): seq<seq<B>>
    requires i <= |xs| && forall k | i <= k < |xs| :: f(xs[k]).Ok?
  {
    seq(|xs| - i, k requires 0 <= k < |xs| - i => f(xs[i + k]).value.1)
  }

  /** The gathering loop succeeds exactly when `f` accepts every remaining
      item, and then appends their runs in order. */
  lemma {:induction false} GatherFromFacts<T, A, B>(f: T -> Result<(seq<A>, seq<B>)>, xs: seq<T>, i: nat, a: seq<A>, b: seq<B>)
    requires i <= |xs|
    ensures GatherFrom(f, xs, i, a, b).Ok? <==> forall k | i <= k < |xs| :: f(xs[k]).Ok?
    ensures GatherFrom(f, xs, i, a, b).Ok? ==>
      GatherFrom(f, xs, i, a, b).value == (a + Flatten(FirstRuns(f, xs, i)), b + Flatten(SecondRuns(f, xs, i)))
    decreases |xs| - i
  {
    if i == |xs| {
      assert a + Flatten(FirstRuns(f, xs, i)) == a && b + Flatten(SecondRuns(f, xs, i)) == b;
    } else if f(xs[i]).Ok? {
      var p := f(xs[i]).value;
      GatherFromFacts(f, xs, i + 1, a + p.0, b + p.1);
      if forall k | i <= k < |xs| :: f(xs[k]).Ok? {
        assert FirstRuns(f, xs, i)[0] == p.0 && SecondRuns(f, xs, i)[0] == p.1;
        assert FirstRuns(f, xs, i)[1..] == FirstRuns(f, xs, i + 1);
        assert SecondRuns(f, xs, i)[1..] == SecondRuns(f, xs, i + 1);
        assert a + Flatten(FirstRuns(f, xs, i)) == (a + p.0) + Flatten(FirstRuns(f, xs, i + 1));
        assert b + Flatten(SecondRuns(f, xs, i)) == (b + p.1) + Flatten(SecondRuns(f, xs, i + 1));
      }
    }
  }
}
