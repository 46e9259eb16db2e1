/** Failure-compatible wrappers for the Python exceptions the block-ensemble core raises. */
module Results {

  /** The exception kinds the core raises, plus `Unmodelled` for a numpy behaviour
      (object-dtype arrays, comparisons of arrays) that the model does not represent. */
  datatype Error =
    | TypeError
    | ValueError
    | KeyError
    | IndexError
    | AttributeError
    | RecursionError
    | NameError
    | Unmodelled

  /** The outcome of a call: its value, or the exception it raises. */
  datatype Result<+T> = Ok(value: T) | Err(error: Error) {

    predicate IsFailure() {
      Err?
    }

    function PropagateFailure<U>(): Result<U>
      requires Err?
    {
      Err(error)
    }

    function Extract(): T
      requires Ok?
    {
      value
    }
  }

  /** A value that may be absent. */
  datatype Option<+T> = None | Some(value: T) {

    predicate IsFailure() {
      None?
    }

    function PropagateFailure<U>(): Option<U>
      requires None?
    {
      None
    }

    function Extract(): T
      requires Some?
    {
      value
    }
  }

  /** `[f(x) for x in xs]` where evaluating `f(x)` may raise: the first element whose `f`
      raises aborts the whole comprehension with that exception. */
  function MapAll<A, B>(xs: seq<A>, f: A -> Result<B>): (r: Result<seq<B>>)
    ensures r.Ok? <==> forall i :: 0 <= i < |xs| ==> f(xs[i]).Ok?
    ensures r.Ok? ==> |r.value| == |xs| && forall i :: 0 <= i < |xs| ==> r.value[i] == f(xs[i]).value
    ensures r.Err? ==>
      exists i :: 0 <= i < |xs| && f(xs[i]) == Err(r.error)
        && forall j :: 0 <= j < i ==> f(xs[j]).Ok?
    decreases |xs|
  {
    if |xs| == 0 then Ok([])
    else
      var pre, last := xs[..|xs| - 1], xs[|xs| - 1];
      assert xs == pre + [last];
      match MapAll(pre, f)
      case Err(e) => Err(e)
      case Ok(init) =>
        match f(last)
        case Err(e) =>
          assert forall j :: 0 <= j < |pre| ==> f(xs[j]).Ok? by {
            forall j | 0 <= j < |pre| ensures f(xs[j]).Ok? { assert xs[j] == pre[j]; }
          }
          Err(e)
        case Ok(v) => Ok(init + [v])
  }
}
