/** The value that may be missing: Python's `None`, or a dictionary lookup that finds nothing. */
module Wrappers {
  datatype Option<+T> = None | Some(value: T)
}
