/** Option and Result types shared by the other modules. */
module Wrappers {

  datatype Option<+T> = None | Some(value: T)

  /** A value of type T, or the error that stopped the computation. */
  datatype Result<+T, +E> = Ok(value: T) | Err(error: E) {

    predicate IsFailure() {
      Err?
    }

    function PropagateFailure<U>(): Result<U, E>
      requires Err?
    {
      Err(error)
    }

    function Extract(): T
      requires Ok?
    {
      value
    }
  }

  /**
    The results evaluated left to right, as a list comprehension whose
    element may raise: all the values when every one is Ok, else the
    first error.
   */
  function Collect<T, E>(rs: seq<Result<T, E>>): Result<seq<T>, E>
    decreases |rs|
  {
    if |rs| == 0 then Ok([])
    else
      var first :- rs[0];
      var rest :- Collect(rs[1..]);
      Ok([first] + rest)
  }

  /**
    Collect succeeds exactly when every result is Ok, and then holds their
    values in order; otherwise it fails with the error of the first result
    that is not Ok.
   */
  lemma {:induction false} CollectSpec<T, E>(rs: seq<Result<T, E>>)
    ensures var r := Collect(rs);
      && (r.Ok? <==> forall k :: 0 <= k < |rs| ==> rs[k].Ok?)
      && (r.Ok? ==> |r.value| == |rs| && forall k :: 0 <= k < |rs| ==> r.value[k] == rs[k].value)
      && (r.Err? ==> exists k :: (0 <= k < |rs|
            && (forall l :: 0 <= l < k ==> rs[l].Ok?)
            && rs[k] == Err(r.error)))
    decreases |rs|
  {
    if |rs| > 0 {
      var rest := rs[1..];
      CollectSpec(rest);
      if rs[0].Ok? {
        assert forall k :: 0 < k < |rs| ==> rs[k] == rest[k - 1];
        var r := Collect(rs);
        if r.Err? {
          var k :| 0 <= k < |rest|
            && (forall l :: 0 <= l < k ==> rest[l].Ok?)
            && rest[k] == Err(r.error);
          assert rs[k + 1] == Err(r.error);
        }
      }
    }
  }
}
