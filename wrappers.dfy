/** The optional value returned by a reader that may never produce one. */
module Wrappers {

  datatype Option<+T> = None | Some(value: T)
}
