/** Optional values (Java's null) and results that may carry an exception message. */
module Wrappers {

  datatype Option<T> = None | Some(value: T)
  {
    function GetOr(default: T): T
    {
      match this
      case None => default
      case Some(v) => v
    }
  }

  /** The outcome of a Java call that either returns a value or throws. */
  datatype Result<T> = Ok(value: T) | Err(error: string)
  {
    predicate IsFailure() { Err? }

    function PropagateFailure<U>(): Result<U>
      requires Err?
    {
      Err(error)
    }

    function Extract(): T
      requires Ok?
    {
      value
    }
  }

  /** Applies f to every element in order; the first failure stops the walk (a Java loop that throws). */
  function MapAll<A, B>(xs: seq<A>, f: A -> Result<B>): Result<seq<B>>
  {
    if xs == [] then Ok([])
    else
      var init :- MapAll(xs[..|xs| - 1], f);
      var last :- f(xs[|xs| - 1]);
      Ok(init + [last])
  }

  /** MapAll succeeds iff f succeeds on every element, and then yields f's values position by position. */
  lemma {:induction false} MapAllEntries<A, B>(xs: seq<A>, f: A -> Result<B>)
    ensures MapAll(xs, f).Ok? <==> forall i :: 0 <= i < |xs| ==> f(xs[i]).Ok?
    ensures MapAll(xs, f).Ok? ==>
      (|MapAll(xs, f).value| == |xs| && forall i :: 0 <= i < |xs| ==> f(xs[i]) == Ok(MapAll(xs, f).value[i]))
  {
    if xs != [] {
      var init := xs[..|xs| - 1];
      MapAllEntries(init, f);
      assert forall i :: 0 <= i < |init| ==> init[i] == xs[i];
    }
  }

  /** A walk that succeeds is the walk of all but the last element, then the last element's value. */
  lemma MapAllSnoc<A, B>(xs: seq<A>, f: A -> Result<B>)
    requires xs != [] && MapAll(xs, f).Ok?
    ensures MapAll(xs[..|xs| - 1], f).Ok? && f(xs[|xs| - 1]).Ok?
    ensures MapAll(xs, f).value == MapAll(xs[..|xs| - 1], f).value + [f(xs[|xs| - 1]).value]
  {
  }

  /** Once a prefix fails, the whole walk fails with the same error. */
  lemma {:induction false} MapAllFailedPrefix<A, B>(xs: seq<A>, k: nat, f: A -> Result<B>)
    requires k <= |xs|
    requires MapAll(xs[..k], f).Err?
    ensures MapAll(xs, f) == MapAll(xs[..k], f)
    decreases |xs|
  {
    if k < |xs| {
      var init := xs[..|xs| - 1];
      assert init[..k] == xs[..k];
      MapAllFailedPrefix(init, k, f);
    } else {
      assert xs[..k] == xs;
    }
  }

  /** One more element: the walk of the longer prefix extends the shorter one's values. */
  lemma MapAllStep<A, B>(xs: seq<A>, i: nat, f: A -> Result<B>)
    requires i < |xs| && MapAll(xs[..i], f).Ok? && f(xs[i]).Ok?
    ensures MapAll(xs[..i + 1], f) == Ok(MapAll(xs[..i], f).value + [f(xs[i]).value])
  {
    assert xs[..i + 1][..i] == xs[..i];
  }
}
