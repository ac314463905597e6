/** Optional values: JavaScript's `null`/`NaN` results and optional record fields. */
module Wrappers {
  datatype Option<+T> = None | Some(value: T)
}
