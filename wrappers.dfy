/** Small helper types shared by the other modules. */
module Wrappers {

  /** A value that may be absent (a failed parse, a navigation that did not happen). */
  datatype Option<+T> = None | Some(value: T)
}
