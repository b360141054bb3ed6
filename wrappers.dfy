/** Optional values, used for inputs that may be missing or fail to parse. */
module Wrappers {

  datatype Option<+T> = None | Some(value: T)
}
