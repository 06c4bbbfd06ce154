/** The optional value that every other module uses where the source has a nil pointer or a missing row. */
module Wrappers {
  datatype Option<+T> = None | Some(value: T)
}
