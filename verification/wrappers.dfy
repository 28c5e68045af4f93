// Small types shared by the modules.
module Wrappers {
  newtype Byte = x: int | 0 <= x < 256

  datatype Option<+T> = None | Some(value: T)
}
