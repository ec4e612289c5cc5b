/** The usual optional value: the C code's pointers that may be RT_NULL. */
module Wrappers {
  datatype Option<+T> = None | Some(value: T)
}
