// Option and Result, used throughout for missing values and for the operations
// of the program that can be refused.
module Wrappers {

  datatype Option<+T> = None | Some(value: T)

  datatype Result<+T, +E> = Ok(value: T) | Err(error: E)

  /** A refused operation is rolled back. */
  function Settle<T, E>(before: T, r: Result<T, E>): T {
    match r case Ok(after) => after case Err(_) => before
  }
}
