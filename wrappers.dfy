/** Optional values: PHP's nullable results (`?Throwable`, a missing array key). */
module Wrappers {

  datatype Option<+T> = None | Some(value: T)
}
