/** Optional values: a day that could not be loaded is `None`. */
module Wrappers {
  datatype Option<+T> = None | Some(value: T)
}
