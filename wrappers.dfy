/** The optional value used for every read that can fail. */
module Wrappers {

  datatype Option<+T> = None | Some(value: T)
}
