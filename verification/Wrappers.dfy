/** The Some/None datatype used wherever the C code returns a possibly NULL pointer. */
module Wrappers {
  datatype Option<+T> = None | Some(value: T)
}
