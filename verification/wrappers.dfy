/** A value that may be absent (Python's `None`, a failed lookup). */
module Wrappers {
  datatype Option<T> = None | Some(value: T)
}
