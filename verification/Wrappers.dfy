/** What several modules share: the optional value and the byte. */
module Wrappers {
  type Byte = x: int | 0 <= x < 256

  datatype Option<+T> = None | Some(value: T)
}
