/** Optional values, standing in for Go's `error` results that may be nil. */
module Wrappers {
  datatype Option<+T> = None | Some(value: T)
}
