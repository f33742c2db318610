/** The usual optional value, standing for Python's None and Go's nil. */
module Wrappers {
  datatype Option<+T> = None | Some(value: T)
}
