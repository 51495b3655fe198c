// Failure-compatible wrappers shared by every module: Go's `(value, error)`
// returns become Result, and Go's nil-able pointers become Option.
module Results {

  datatype Option<+T> = None | Some(value: T)

  /** A value or the text of the Go error that the source returns instead. */
  datatype Result<+T> = Ok(value: T) | Err(error: string) {

    predicate IsFailure() {
      Err?
    }

    function PropagateFailure<U>(): Result<U>
      requires Err?
    {
      Err(error)
    }

    function Extract(): T
      requires Ok?
    {
      value
    }
  }
}
