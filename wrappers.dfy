/** Optional values: Python's `None` for the stored cursor and for a regex
    search that finds nothing. */
module Wrappers {
  datatype Option<+T> = None | Some(value: T)
}
