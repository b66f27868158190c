/** What several modules share. */
module Basics {

  datatype Option<T> = None | Some(value: T)

  type Byte = x: nat | x < 256
}
