/** The optional-value datatype shared by the model's modules. */
module Wrappers {
  datatype Option<T> = None | Some(value: T)
}
