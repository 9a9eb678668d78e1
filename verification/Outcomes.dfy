/**
 Results of operations that may refuse.
 */
module Outcomes {
  datatype Option<+T> = None | Some(value: T)
  datatype Result<+T, +E> = Ok(value: T) | Err(error: E)
}
