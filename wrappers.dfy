/** Small shared helpers: an optional value (Java's nullable reference). */
module Wrappers {
  datatype Option<T> = None | Some(value: T)
}
