/** The optional-value datatype used across the model. */
module Wrappers {

  /** `None` stands for JavaScript's `undefined` wherever a value may be missing. */
  datatype Option<+T> = None | Some(value: T)
}
