/** Optional values, used for Go's nil results and for parsers that may fail. */
module Wrappers {

  datatype Option<+T> = None | Some(value: T)
}
