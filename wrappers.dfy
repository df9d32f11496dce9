/** Option and Result values used for the outcomes the node receives from its
    networking library and for optional configuration. */
module Wrappers {

  datatype Option<+T> = None | Some(value: T)

  datatype Result<+R, +E> = Ok(value: R) | Err(error: E)
}
