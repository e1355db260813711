/** Option, for values that may be absent (JavaScript's null/undefined). */
module Wrappers {
  datatype Option<+T> = None | Some(value: T)
}
