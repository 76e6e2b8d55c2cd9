/** The optional value used wherever the source has a field or a result that may be null or undefined. */
module Wrappers {
  datatype Option<+T> = None | Some(value: T)
}
