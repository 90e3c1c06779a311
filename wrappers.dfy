/** Optional values, for the C library calls that return a null pointer. */
module Wrappers {

  datatype Option<+T> = None | Some(value: T)
}
