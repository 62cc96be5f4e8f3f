/** Option and Result values shared by the modules of this model. A thrown error
    of the source becomes an Err carrying the error's message or kind. */
module Wrappers {

  datatype Option<+T> = None | Some(value: T)

  datatype Result<+T, +E> = Ok(value: T) | Err(error: E)
}
