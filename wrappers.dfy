/** Optional values: a JavaScript value that may be `null`/`undefined`. */
module Wrappers {

  datatype Option<+T> = None | Some(value: T)
}
