/** The optional-value type used for absent request headers and optional columns. */
module Wrappers {

  datatype Option<+T> = None | Some(value: T)
}
