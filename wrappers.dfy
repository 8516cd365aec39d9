/** Optional values, used for SQL NULLs and for lookups that may find nothing. */
module Wrappers {
  datatype Option<+T> = None | Some(value: T)
}
