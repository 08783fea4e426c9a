/** Optional value, used where the component holds no value or has no defined result. */
module Wrappers {

  datatype Option<+T> = None | Some(value: T)
}
