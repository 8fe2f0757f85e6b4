/** A value that may be absent: Java's nullable references to value-like objects. */
module Wrappers {
  datatype Option<+T> = None | Some(value: T)
}
