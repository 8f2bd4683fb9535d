/** The optional-value datatype used throughout the model for lookups that may fail. */
module Wrappers {

  datatype Option<+T> = None | Some(value: T)
}
