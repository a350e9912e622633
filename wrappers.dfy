/** Optional values: a JSON field that is absent or null, a fetch that failed. */
module Wrappers {

  datatype Option<+T> = None | Some(value: T)
}
