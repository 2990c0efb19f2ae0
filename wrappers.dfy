/** Optional values, for address decodes that may find no register. */
module Wrappers {
  datatype Option<T> = None | Some(value: T)
}
