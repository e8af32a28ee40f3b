/** Optional values: JavaScript's `null` in the component state. */
module Wrappers {
  datatype Option<+T> = None | Some(value: T)
}
