/** Optional values: Python's `None` and a missing dictionary key. */
module Wrappers {

  datatype Option<+T> = None | Some(value: T)
}
