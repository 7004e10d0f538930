/** Optional values: a field that is absent (or not of the expected type) in a stored record. */
module Wrappers {
  datatype Option<+T> = None | Some(value: T)
}
