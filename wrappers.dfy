/** The optional value used wherever the source returns `None` or raises instead of answering. */
module Wrappers {
  datatype Option<+T> = None | Some(value: T)
}
