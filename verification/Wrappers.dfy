/** Result shapes and the bound of safe integers, shared by the models. */
module Wrappers {

  const MAX_SAFE_INTEGER: int := 9007199254740991

  datatype Option<+T> = None | Some(value: T)

  datatype Result<+T, +E> = Ok(value: T) | Err(error: E)
}
