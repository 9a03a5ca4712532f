/** Optional values, used where the source uses a null pointer or a "maybe" result. */
module Wrappers {
  datatype Option<+T> = None | Some(value: T)
}
