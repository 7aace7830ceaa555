/** The optional-value datatype used throughout the model (Python's `None`,
    a JavaScript element that `getElementById` did not find). */
module Wrappers {
  datatype Option<+T> = None | Some(value: T)
}
