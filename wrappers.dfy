/** The optional value used wherever the application has `T | null`. */
module Wrappers {
  datatype Option<+T> = None | Some(value: T)
}
