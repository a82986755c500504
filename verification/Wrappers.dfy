/** A value that may be missing: a Go pointer that may be nil, or a result that may fail. */
module Wrappers {
  datatype Option<T> = None | Some(value: T)
}
