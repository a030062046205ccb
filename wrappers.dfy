/** The Option datatype the rest of the model uses for absent values. */
module Wrappers {
  datatype Option<+T> = None | Some(value: T)
}
