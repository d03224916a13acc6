/** Failure-compatible wrappers used for the source's nulls and exceptions. */
module Wrappers {

  datatype Option<+T> = None | Some(value: T)

  /** A value, or the exception the source would have thrown instead. */
  datatype Result<+T, +E> = Ok(value: T) | Err(error: E) {
    predicate IsFailure() { Err? }
    function PropagateFailure<U>(): Result<U, E>
      requires Err?
    {
      Err(error)
    }
    function Extract(): T
      requires Ok?
    {
      value
    }
  }

  /** The outcome of an operation that returns nothing but may throw. */
  datatype Outcome<+E> = Pass | Fail(error: E)

  /** The values of `rs` in order, or the error of the first that failed (a loop that throws on the first failure). */
  function Collect<T, E>(rs: seq<Result<T, E>>): (r: Result<seq<T>, E>)
    ensures r.Ok? ==> |r.value| == |rs|
  {
    if rs == [] then Ok([])
    else
      var prev := Collect(rs[..|rs| - 1]);
      if prev.Err? then prev
      else if rs[|rs| - 1].Err? then Err(rs[|rs| - 1].error)
      else Ok(prev.value + [rs[|rs| - 1].value])
  }

  /** Collect succeeds exactly when every element does, and then keeps each value in its place. */
  lemma {:induction false} CollectOk<T, E>(rs: seq<Result<T, E>>)
    ensures Collect(rs).Ok? <==> forall i :: 0 <= i < |rs| ==> rs[i].Ok?
    ensures Collect(rs).Ok? ==> forall i :: 0 <= i < |rs| ==> Collect(rs).value[i] == rs[i].value
  {
    if rs != [] {
      CollectOk(rs[..|rs| - 1]);
    }
  }

  /** The error Collect reports is the error of one of the elements. */
  lemma {:induction false} CollectErrFrom<T, E>(rs: seq<Result<T, E>>)
    requires Collect(rs).Err?
    ensures exists i :: 0 <= i < |rs| && rs[i].Err? && rs[i].error == Collect(rs).error
  {
    var init := rs[..|rs| - 1];
    if Collect(init).Err? {
      CollectErrFrom(init);
      var i :| 0 <= i < |init| && init[i].Err? && init[i].error == Collect(init).error;
      assert rs[i] == init[i];
    }
  }

  /** Collect fails with the error of the first failing element. */
  lemma {:induction false} CollectFirstErr<T, E>(rs: seq<Result<T, E>>, i: int)
    requires 0 <= i < |rs| && rs[i].Err?
    requires forall k :: 0 <= k < i ==> rs[k].Ok?
    ensures Collect(rs) == Err(rs[i].error)
  {
    var init := rs[..|rs| - 1];
    if i == |rs| - 1 {
      CollectOk(init);
    } else {
      CollectFirstErr(init, i);
    }
  }
}
