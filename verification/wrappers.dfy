/** An optional value shared by the shell modules. */
module Wrappers {

  /** A value that may be absent: `None` plays the role of the C code's
      "no error found" or "no such stage". */
  datatype Option<+T> = None | Some(value: T)
}
