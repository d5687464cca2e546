/** Optional values: PHP's `null` / `false` results. */
module Wrappers {

  datatype Option<+T> = None | Some(value: T)
}
