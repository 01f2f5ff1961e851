/** Optional values: a query-string parameter that may be missing, a timer slot that may be empty,
    a decoding that may fail. */
module Wrappers {
  datatype Option<+T> = None | Some(value: T)
}
