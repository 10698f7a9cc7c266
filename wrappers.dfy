/** The optional value used for state that may be unset. */
module Wrappers {

  datatype Option<T> = None | Some(value: T)
}
