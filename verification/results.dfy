/** Failure-compatible wrappers for the Python exceptions the engine raises. */
module Results {

  /** The Python exception classes the modelled code raises synchronously. */
  datatype Raised = ValueError | RuntimeError | TypeError

  datatype Option<+T> = None | Some(value: T) {
    function GetOr(default: T): T {
      match this
      case Some(v) => v
      case None => default
    }
  }

  /** Either the operation's value or the exception it raised. */
  datatype Result<+T> = Ok(value: T) | Err(raised: Raised) {
    predicate IsFailure() {
      Err?
    }

    function PropagateFailure<U>(): Result<U>
      requires Err?
    {
      Err(raised)
    }

    function Extract(): T
      requires Ok?
    {
      value
    }
  }
}
