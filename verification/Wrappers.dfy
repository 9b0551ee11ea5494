/** A value that may be missing: a failed look-up or a thrown exception. */
module Wrappers {
  datatype Option<+T> = None | Some(value: T)
}
