// The token helper's outcome types. Every Go operation of the helper
// returns a value together with an `error`; the model returns one value
// that is either the typed result or the error text.
module Results {

  datatype Option<+T> = None | Some(value: T)

  // `IsFailure`, `PropagateFailure` and `Extract` let a function write
  // `var x :- r;` to stop at the first failure, as each Go operation returns
  // as soon as one of its checks fails.
  datatype Result<+T> = Success(value: T) | Failure(error: string) {

    predicate IsFailure() {
      Failure?
    }

    // The same failure, at another result type: the message is kept.
    function PropagateFailure<U>(): (r: Result<U>)
      requires Failure?
      ensures r.Failure? && r.error == error
    {
      Failure(error)
    }

    function Extract(): T
      requires Success?
    {
      value
    }
  }
}
