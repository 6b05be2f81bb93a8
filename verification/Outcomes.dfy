/** Absent values and error returns: SQL NULLs, missing rows, and the source's exceptions. */
module Outcomes {
  datatype Option<+T> = None | Some(value: T)

  datatype Result<+T, +E> = Ok(value: T) | Err(error: E)
}
