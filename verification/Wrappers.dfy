/** The option type used for Go's nil pointers, nil functions and nil errors. */
module Wrappers {
  datatype Option<+T> = None | Some(value: T)
}
