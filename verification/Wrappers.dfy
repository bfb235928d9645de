/** The optional value used throughout the model: an absent field, coordinate or result. */
module Wrappers {
  datatype Option<+T> = None | Some(value: T)
}
