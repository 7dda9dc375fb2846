/** Optional values: a SQL NULL, a missing JSON field or query parameter, a failed lookup. */
module Wrappers {
  datatype Option<+T> = None | Some(value: T)
}
