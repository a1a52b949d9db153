/** The optional value the converters and the file readers return. */
module Wrappers {
  datatype Option<T> = None | Some(value: T)
}
