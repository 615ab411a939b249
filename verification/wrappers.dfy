/** The optional value used wherever a source value may be absent or undefined. */
module Wrappers {
  datatype Option<T> = None | Some(value: T)
}
