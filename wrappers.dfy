/** The optional value used for a read that may fail and an encoder that may raise. */
module Wrappers {

  datatype Option<+T> = None | Some(value: T)
}
