/** Small helper datatypes shared by the modules of the inventory model. */
module Wrappers {

  /** A value that may be absent: JavaScript's `null`/`undefined`, or "no match". */
  datatype Option<+T> = None | Some(value: T)
}
