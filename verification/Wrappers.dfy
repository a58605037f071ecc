// Result shapes and byte strings used by the rest of the project.
module Wrappers {
  datatype Option<+T> = None | Some(value: T)

  // Ok is a normal return; Err stands for a raised exception.
  datatype Result<+T, +E> = Ok(value: T) | Err(error: E)

  type Bytes = seq<int>
}
