/** Option and Result, for values the load tester may not produce and for
    the exceptions that end a run. */
module Wrappers {
  datatype Option<+T> = None | Some(value: T)

  datatype Result<+T, +E> = Ok(value: T) | Err(error: E)
}
