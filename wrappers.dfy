/** Optional values: a JavaScript `null`/absent value is `None`. */
module Wrappers {
  datatype Option<+T> = None | Some(value: T)
}
