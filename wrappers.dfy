/** Optional values: JavaScript's `undefined` and "key not present". */
module Wrappers {
  datatype Option<+T> = None | Some(value: T)
}
