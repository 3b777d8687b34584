/** Small helper types shared by the modules of this project. */
module Wrappers {

  /** A value that may be absent: JavaScript's `null` or a missing optional match. */
  datatype Option<+T> = None | Some(value: T)
}
