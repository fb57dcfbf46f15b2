/** Optional values, used for "no format recognised" and for a parse that raised. */
module Wrappers {

  datatype Option<+T> = None | Some(value: T)
}
