// The optional value used for C's nullable pointers and for "not found".
module Wrappers {
  datatype Option<+T> = None | Some(value: T)
}
