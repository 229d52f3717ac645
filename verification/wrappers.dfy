/** The optional value used for the nullable strings and the nullable record of the program. */
module Wrappers {

  datatype Option<+T> = None | Some(value: T)
}
