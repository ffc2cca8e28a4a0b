/** The optional value used for Python's `None` results and nullable fields. */
module Wrappers {

  datatype Option<+T> = None | Some(value: T)
}
