/** Option, Result and Outcome: the null references and exceptions of the
    source become explicit values. */
module Wrappers {

  /** A reference or value that may be null. */
  datatype Option<+T> = None | Some(value: T)

  /** A computation that either returns a value or throws an error. */
  datatype Result<+R, +E> = Success(value: R) | Failure(error: E) {
    /** Forgets the value, keeping only whether it threw and what. */
    function ToOutcome(): Outcome<E> {
      match this
      case Success(_) => Pass
      case Failure(e) => Fail(e)
    }
  }

  /** A `void` computation that either completes or throws an error. */
  datatype Outcome<+E> = Pass | Fail(error: E)
}
