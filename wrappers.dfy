/** Optional values: a record field that may be absent (`undefined` in the source). */
module Wrappers {

  datatype Option<+T> = None | Some(value: T)
}
