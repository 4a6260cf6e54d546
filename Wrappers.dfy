/** Optional values, standing in for C#'s nullable results. */
module Wrappers {
  datatype Option<+T> = None | Some(value: T)
}
