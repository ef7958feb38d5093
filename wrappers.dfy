/** The optional value used where the source either produces a value or reports absence. */
module Wrappers {
  datatype Option<+T> = None | Some(value: T)
}
