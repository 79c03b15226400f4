/** The optional value used for "not found" outcomes. */
module Wrappers {
  datatype Option<+T> = None | Some(value: T)
}
