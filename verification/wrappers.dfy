/** The optional value used wherever Go returns either a value or nil. */
module Wrappers {

  datatype Option<+T> = None | Some(value: T)
}
