/** Java's nullable references, written as an explicit absence. */
module Wrappers {
  datatype Option<+T> = None | Some(value: T)
}
