/** The optional value used for fields that a JSON record may leave out. */
module Wrappers {
  datatype Option<+T> = None | Some(value: T)
}
