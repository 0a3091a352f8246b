/** Small failure-carrying datatypes shared by the modules of the pool model. */
module Wrappers {

  /** A value that may be absent: Django's nullable fields and `None` returns. */
  datatype Option<+T> = None | Some(value: T)

  /** The verdict of a validation step: pass, or fail with the error it raises. */
  datatype Outcome<+E> = Pass | Fail(error: E)
}
