/** The optional-value datatype used across the model for "absent" results
    (a Go nil pointer, a failed parse, a missing separator). */
module Wrappers {

  datatype Option<+T> = None | Some(value: T)
}
