/** Failure-carrying values shared by the facade and the registry. */
module Results {

  /** A value that may be absent (`undefined` in the program). */
  datatype Option<+T> = None | Some(value: T)

  /** A value, or the error a call throws instead of returning one. */
  datatype Result<+T, +E> = Ok(value: T) | Err(error: E) {

    predicate IsFailure() {
      Err?
    }

    function PropagateFailure<U>(): Result<U, E>
      requires Err?
    {
      Err(error)
    }

    function Extract(): T
      requires Ok?
    {
      value
    }
  }

  /** How a call that returns nothing ends: it completes, or it throws. */
  datatype Outcome<+E> = Pass | Fail(error: E)

  /** A call on a mutable object: the object's state once the call is over,
      and whether the call threw. */
  datatype Step<+S, +E> = Step(next: S, outcome: Outcome<E>)
}
