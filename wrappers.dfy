/** Optional values, used where the Go code reports "no value" through a second result. */
module Wrappers {

  datatype Option<+T> = None | Some(value: T)
}
