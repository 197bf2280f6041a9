/** The optional value used wherever the source returns an optional or can fail. */
module Wrappers {

  datatype Option<+T> = None | Some(value: T)
}
