/** The optional value used throughout for null pointers and absent results. */
module Wrappers {
  datatype Option<+T> = None | Some(value: T)
}
