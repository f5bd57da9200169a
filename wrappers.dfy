/** Optional values, used for absent elements, attributes and cache entries. */
module Wrappers {
  datatype Option<+T> = None | Some(value: T)
}
