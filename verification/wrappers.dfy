/** The optional value used for the outcomes that Python signals by raising. */
module Wrappers {

  datatype Option<+T> = None | Some(value: T)
}
