/** The optional value used where the C++ code returns an iterator that may be `end()`. */
module Wrappers {
  datatype Option<+T> = None | Some(value: T)
}
