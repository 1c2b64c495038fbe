/** A value that may be missing, as a Java reference that may be null. */
module Wrappers {
  datatype Option<T> = None | Some(value: T)
}
