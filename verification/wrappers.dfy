/** The optional-value datatype used across the model for "may be absent":
    an unset parent reference, a missing shared buffer, a failed lookup. */
module Wrappers {

  datatype Option<+T> = None | Some(value: T)
}
