/** A value that may be missing: JavaScript's `undefined` for an optional field. */
module Wrappers {

  datatype Option<+T> = None | Some(value: T)
}
