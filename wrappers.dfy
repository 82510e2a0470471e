/** Optional values, standing for Go's nil-able results (a nil map, a nil error). */
module Wrappers {

  datatype Option<+T> = None | Some(value: T)
}
