/** Optional values: a dictionary key that may be missing from an execution record. */
module Wrappers {

  datatype Option<+T> = None | Some(value: T)
}
