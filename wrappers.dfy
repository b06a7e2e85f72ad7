/** Option and Result, the error paths of the modelled operations, and the
    byte type shared by the binary decoders. */
module Wrappers {

  datatype Option<+T> = None | Some(value: T)

  datatype Result<+T, +E> = Ok(value: T) | Err(error: E)

  type Byte = b: int | 0 <= b < 256
}
