/** Optional values, used where the source has `undefined`. */
module Wrappers {
  datatype Option<T> = None | Some(value: T)
}
