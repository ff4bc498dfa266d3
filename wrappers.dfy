/** Optional values: a missing request field, an absent row, a null column. */
module Wrappers {
  datatype Option<+T> = None | Some(value: T)
}
