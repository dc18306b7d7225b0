/** Failure-compatible wrappers shared by the tokenizers and the evaluator. */
module Results {

  /** An optional value, used for partial matches and lookups. */
  datatype Option<+T> = None | Some(value: T)

  /** The outcome of an operation that may raise. Every exception the
      Python code can raise (RuntimeError, AssertionError, KeyError,
      IndexError, TypeError, ValueError, ...) is collapsed into `Error`. */
  datatype Result<+T> = Ok(value: T) | Error {

    predicate IsFailure() {
      Error?
    }

    function PropagateFailure<U>(): Result<U>
      requires Error?
    {
      Error
    }

    function Extract(): T
      requires Ok?
    {
      value
    }
  }
}
