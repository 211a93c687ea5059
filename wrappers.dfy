/** Optional values, used for "nothing pending" refs and for reports that may not happen. */
module Wrappers {
  datatype Option<+T> = None | Some(value: T)
}
