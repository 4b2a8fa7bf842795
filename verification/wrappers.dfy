/** The optional value used wherever a lookup or an operation can fail. */
module Wrappers {

  datatype Option<+T> = None | Some(value: T)
}
