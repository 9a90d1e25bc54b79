/** The optional value used wherever the source returns `null` or a failed match. */
module Wrappers {
  datatype Option<T> = None | Some(value: T)
}
