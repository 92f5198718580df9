/** Optional values: PHP's "value or NULL". */
module Wrappers {

  datatype Option<+T> = None | Some(value: T)
}
