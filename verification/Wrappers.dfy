/** The optional value used throughout for Python's `None`. */
module Wrappers {
  datatype Option<+T> = None | Some(value: T)
}
