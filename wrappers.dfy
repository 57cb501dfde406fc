/** Option and Result, used for nullable references, "not found" answers and
    thrown exceptions of the modelled code. */
module Wrappers {

  datatype Option<+T> = None | Some(value: T)

  datatype Result<+R, +E> = Ok(value: R) | Err(error: E)
}
