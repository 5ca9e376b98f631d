/** Optional values, used where the source reads `null` or a missing element. */
module Wrappers {
  datatype Option<+T> = None | Some(value: T)
}
