/** Failure-carrying values. Every server action of the application either
    returns a value or fails with a message string (thrown or returned as
    `{ error }`); the model returns a `Result` in both cases. */
module Results {

  datatype Option<+T> = None | Some(value: T) {

    /** The carried value, or `fallback` when there is none (JavaScript's `?? fallback`). */
    function GetOr(fallback: T): T {
      match this
      case Some(v) => v
      case None => fallback
    }
  }

  datatype Result<+T> = Ok(value: T) | Err(error: string) {

    predicate IsFailure() {
      Err?
    }

    function PropagateFailure<U>(): Result<U>
      requires Err?
    {
      Err(error)
    }

    function Extract(): T
      requires Ok?
    {
      value
    }
  }
}
