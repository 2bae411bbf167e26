/** Option and Result, the two wrappers the rest of the model uses for
    Python's `Optional[...]` values and for raised errors. */
module Wrappers {

  datatype Option<+T> = None | Some(value: T)

  /** A computation that either produced a value or raised an error; the
      error payload is the message the Python code puts in the exception. */
  datatype Result<+R, +E> = Success(value: R) | Failure(error: E)

  /** Python's truthiness of an `Optional[str]`: present and non-empty. */
  predicate Truthy(o: Option<string>) {
    o.Some? && o.value != []
  }
}
