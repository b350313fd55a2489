/** The optional value used for the missing key argument and for path lookups. */
module Wrappers {
  datatype Option<+T> = None | Some(value: T)
}
