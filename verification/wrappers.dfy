/** The optional value used for the optional fields of a point and for a lookup that may fail. */
module Wrappers {
  datatype Option<+T> = None | Some(value: T)
}
