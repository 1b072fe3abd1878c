/** The optional value returned by the validating constructor of a card reference. */
module Wrappers {

  datatype Option<+T> = None | Some(value: T)
}
