/** The optional value used wherever the decorator code compares a reference with null. */
module Wrappers {
  datatype Option<+T> = None | Some(value: T)
}
