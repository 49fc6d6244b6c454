/** Option type shared by the modules of the message pipeline. */
module Wrappers {

  /** A value that may be absent (Python's `None`). */
  datatype Option<T> = None | Some(value: T)
}
