/** Option and Result types shared by every module, and the Python exception
 *  classes that the modelled code raises. */
module Wrappers {
  datatype Option<T> = None | Some(value: T)

  /** The exception classes raised by the modelled code; messages are not modelled. */
  datatype PyError = ValueError | KeyError | TypeError | IndexError | AttributeError

  /** The outcome of a Python call: its return value, or the exception it raises. */
  datatype Result<T> = Ok(value: T) | Err(error: PyError) {
    predicate IsFailure() { Err? }

    function PropagateFailure<U>(): Result<U>
      requires Err?
    {
      Err(error)
    }

    function Extract(): T
      requires Ok?
    {
      value
    }
  }

  /** The outcome of a Python call that returns None: success, or an exception. */
  datatype Outcome = Pass | Fail(error: PyError) {
    predicate IsFailure() { Fail? }

    function PropagateFailure(): Outcome
      requires Fail?
    {
      this
    }
  }
}
