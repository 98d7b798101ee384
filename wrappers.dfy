/** Optional values: a DOM attribute or element that may be absent (JavaScript's null). */
module Wrappers {

  datatype Option<+T> = None | Some(value: T)
}
