/** The optional-value datatype used across the model. */
module Opt {
  datatype Option<T> = None | Some(value: T)
}
