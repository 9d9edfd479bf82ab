/** Optional values, used where the Go code has an "ok" flag or a skipped case. */
module Wrappers {

  datatype Option<+T> = None | Some(value: T)

}
