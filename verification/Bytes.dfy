/** Bytes, as the network code and the map code handle them. */
module Bytes {
  type Byte = b: int | 0 <= b < 256

  datatype Option<T> = None | Some(value: T)
}
