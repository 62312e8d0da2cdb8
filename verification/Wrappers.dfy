/** The optional value used where the source has a possibly missing row, key or timestamp. */
module Wrappers {
  datatype Option<+T> = None | Some(value: T)
}
