/** Optional values: the source's `null`, `NaN` and "nothing found" cases. */
module Wrappers {

  datatype Option<T> = None | Some(value: T)
}
