/** The optional value used throughout the model for a JavaScript null or undefined. */
module Wrappers {
  datatype Option<+T> = None | Some(value: T)
}
