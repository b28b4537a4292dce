/** The optional value shared by the modules of this project: the Go code's
    nil-or-value results (a nil error, a failed lookup). */
module Wrappers {
  datatype Option<T> = None | Some(value: T)
}
