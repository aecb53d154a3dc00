/** Failure-compatible result types shared by every stage of the compiler.
    The Go source aborts with `panic` on the first error; here each stage
    returns a `Result` instead, so the error path is an ordinary value. */
module Wrappers {

  datatype Option<+T> = None | Some(value: T)

  /** Either a value or the error that stopped the computation. */
  datatype Result<+T, +E> = Ok(value: T) | Err(error: E) {

    predicate IsFailure() {
      Err?
    }

    function PropagateFailure<U>(): Result<U, E>
      requires Err?
    {
      Err(error)
    }

    function Extract(): T
      requires Ok?
    {
      value
    }
  }
}
