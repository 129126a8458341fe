/** An optional value: the pointer results that may be NULL. */
module Wrappers {
  datatype Option<+T> = None | Some(value: T)
}
