/** Option and Result, the failure-carrying values used for the generator's panics
    and for the lookups that may fail. */
module Wrappers {

  datatype Option<+T> = None | Some(value: T)

  datatype Result<+T, +E> = Ok(value: T) | Err(error: E)

  /** Runs two stages that each produce a list, in order: the first failure wins,
      otherwise the lists are concatenated. This is how the generator's loops
      append to an output slice and abort on the first panic. */
  function Then<T, E>(first: Result<seq<T>, E>, second: Result<seq<T>, E>): (r: Result<seq<T>, E>)
    ensures first.Err? ==> r == first
    ensures first.Ok? && second.Err? ==> r == second
    ensures first.Ok? && second.Ok? ==> r == Ok(first.value + second.value)
  {
    if first.Err? then first
    else if second.Err? then second
    else Ok(first.value + second.value)
  }

  lemma ThenAssociative<T, E>(a: Result<seq<T>, E>, b: Result<seq<T>, E>, c: Result<seq<T>, E>)
    ensures Then(Then(a, b), c) == Then(a, Then(b, c))
  {
    if a.Ok? && b.Ok? && c.Ok? {
      assert (a.value + b.value) + c.value == a.value + (b.value + c.value);
    }
  }

  /** Runs one stage per element of `xs`, in order, with Then: the first failure
      wins, otherwise the stages' lists are concatenated. */
  function ThenAll<A, T, E>(xs: seq<A>, f: A -> Result<seq<T>, E>): Result<seq<T>, E>
  {
    if |xs| == 0 then Ok([]) else Then(ThenAll(xs[..|xs| - 1], f), f(xs[|xs| - 1]))
  }

  lemma {:induction false} ThenAllAppend<A, T, E>(xs: seq<A>, ys: seq<A>, f: A -> Result<seq<T>, E>)
    ensures ThenAll(xs + ys, f) == Then(ThenAll(xs, f), ThenAll(ys, f))
    decreases |ys|
  {
    if |ys| == 0 {
      assert xs + ys == xs;
      var x := ThenAll(xs, f);
      if x.Ok? {
        assert x.value + [] == x.value;
      }
    } else {
      var init := ys[..|ys| - 1];
      assert (xs + ys)[..|xs + ys| - 1] == xs + init;
      assert (xs + ys)[|xs + ys| - 1] == ys[|ys| - 1];
      ThenAllAppend(xs, init, f);
      ThenAssociative(ThenAll(xs, f), ThenAll(init, f), f(ys[|ys| - 1]));
    }
  }

  /** A failure at element i, after the elements before it succeeded, is the
      result of the whole sequence. */
  lemma {:induction false} ThenAllFailure<A, T, E>(xs: seq<A>, i: nat, f: A -> Result<seq<T>, E>)
    requires i < |xs|
    requires ThenAll(xs[..i], f).Ok? && f(xs[i]).Err?
    ensures ThenAll(xs, f) == f(xs[i])
  {
    assert xs[..i + 1][..i] == xs[..i];
    assert xs == xs[..i + 1] + xs[i + 1..];
    ThenAllAppend(xs[..i + 1], xs[i + 1..], f);
  }

  /** Elements that each contribute nothing leave nothing. */
  lemma {:induction false} ThenAllEmpty<A, T, E>(xs: seq<A>, f: A -> Result<seq<T>, E>)
    requires forall i :: 0 <= i < |xs| ==> f(xs[i]) == Ok([])
    ensures ThenAll(xs, f) == Ok([])
  {
    if |xs| > 0 {
      var init := xs[..|xs| - 1];
      assert forall i :: 0 <= i < |init| ==> init[i] == xs[i];
      ThenAllEmpty(init, f);
      assert f(xs[|xs| - 1]) == Ok([]);
      var none: seq<T> := [];
      assert none + none == none;
    }
  }

  /** A property every element's contribution has, the whole result has. */
  lemma {:induction false} ThenAllEach<A, T, E>(xs: seq<A>, f: A -> Result<seq<T>, E>, p: T -> bool)
    requires forall i :: 0 <= i < |xs| && f(xs[i]).Ok? ==> forall e :: e in f(xs[i]).value ==> p(e)
    ensures ThenAll(xs, f).Ok? ==> forall e :: e in ThenAll(xs, f).value ==> p(e)
  {
    if |xs| > 0 {
      var init := xs[..|xs| - 1];
      assert forall i :: 0 <= i < |init| ==> init[i] == xs[i];
      ThenAllEach(init, f, p);
      var last := f(xs[|xs| - 1]);
      if ThenAll(xs, f).Ok? {
        assert ThenAll(xs, f).value == ThenAll(init, f).value + last.value;
      }
    }
  }

  lemma AppendAssociative<T>(a: seq<T>, b: seq<T>, c: seq<T>)
    ensures a + b + c == a + (b + c)
  {
  }
}
