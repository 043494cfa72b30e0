/** Option and Result, used for absent values and for operations that
    raise in the original program. */
module Wrappers {

  datatype Option<+T> = None | Some(value: T)

  datatype Result<+T> = Ok(value: T) | Err(error: string)
}
