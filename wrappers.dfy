/** The optional-value datatype used for JavaScript's null and Python's None. */
module Wrappers {

  datatype Option<+T> = None | Some(value: T)
}
