/** The optional value used in place of a nil pointer or an error return. */
module Wrappers {
  datatype Option<+T> = None | Some(value: T)
}
