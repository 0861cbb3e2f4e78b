/** The answer of a matcher: nothing, or what it found. */
module Wrappers {
  datatype Option<+T> = None | Some(value: T)
}
