/** Failure-carrying result types shared by the whole model. */
module Wrappers {

  /** Python's "a value or None". */
  datatype Option<+T> = None | Some(value: T)

  /** The outcome of Python code that may raise: either it returns a value or
      an exception escapes it. Which exception is immaterial to the callers,
      which all catch broadly or let it propagate. */
  datatype Raising<+T> = Ok(value: T) | Raise

  /** The loop `for x in xs: try: out.append(f(x)) except: continue`: the
      results of the elements on which `f` does not raise, in order. */
  function Kept<A, B>(f: A -> Raising<B>, xs: seq<A>): (r: seq<B>)
    ensures |r| <= |xs|
  {
    if xs == [] then []
    else
      var last := f(xs[|xs| - 1]);
      Kept(f, xs[..|xs| - 1]) + (if last.Ok? then [last.value] else [])
  }

  /** Every kept result is the result of some element. */
  lemma {:induction false} KeptFrom<A, B>(f: A -> Raising<B>, xs: seq<A>)
    ensures forall y :: y in Kept(f, xs) ==> exists x :: x in xs && f(x) == Ok(y)
  {
    if xs != [] {
      var init := xs[..|xs| - 1];
      KeptFrom(f, init);
      forall y | y in Kept(f, xs) ensures exists x :: x in xs && f(x) == Ok(y) {
        if y in Kept(f, init) {
          var x :| x in init && f(x) == Ok(y);
          assert x in xs;
        } else {
          assert xs[|xs| - 1] in xs;
        }
      }
    }
  }

  /** When no element raises, there is one result per element, in order. */
  lemma {:induction false} KeptAll<A, B>(f: A -> Raising<B>, xs: seq<A>)
    requires forall k :: 0 <= k < |xs| ==> f(xs[k]).Ok?
    ensures |Kept(f, xs)| == |xs|
    ensures forall k :: 0 <= k < |xs| ==> Kept(f, xs)[k] == f(xs[k]).value
  {
    if xs != [] {
      var init := xs[..|xs| - 1];
      assert forall k :: 0 <= k < |init| ==> init[k] == xs[k];
      KeptAll(f, init);
    }
  }

  /** When every element raises, nothing is kept. */
  lemma {:induction false} KeptNone<A, B>(f: A -> Raising<B>, xs: seq<A>)
    requires forall k :: 0 <= k < |xs| ==> f(xs[k]).Raise?
    ensures Kept(f, xs) == []
  {
    if xs != [] {
      KeptNone(f, xs[..|xs| - 1]);
    }
  }

  /** The loop that computes `Kept`. */
  method KeepResults<A, B>(f: A -> Raising<B>, xs: seq<A>) returns (out: seq<B>)
    ensures out == Kept(f, xs)
  {
    out := [];
    var i := 0;
    while i < |xs|
      invariant i <= |xs|
      invariant out == Kept(f, xs[..i])
    {
      assert xs[..i + 1][..i] == xs[..i];
      var y := f(xs[i]);
      if y.Ok? {
        out := out + [y.value];
      }
      i := i + 1;
    }
    assert xs[..i] == xs;
  }
}
