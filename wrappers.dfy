/** The optional value used where the source returns `false`, `null` or throws. */
module Wrappers {
  datatype Option<+T> = None | Some(value: T)
}
