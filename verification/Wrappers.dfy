/** A value that may be absent: a missing map entry, an unset field, JavaScript's undefined. */
module Wrappers {
  datatype Option<+T> = None | Some(value: T)
}
