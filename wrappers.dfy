/** Optional values, for lookups and operations of the firmware that can fail. */
module Wrappers {
  datatype Option<+T> = None | Some(value: T)
}
