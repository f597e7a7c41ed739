/** Optional values and results with an error alternative, used where the
    analysis script raises an exception or a lookup can fail. */
module Wrappers {

  datatype Option<+T> = None | Some(value: T)

  datatype Result<+T, +E> = Ok(value: T) | Err(error: E)
}
