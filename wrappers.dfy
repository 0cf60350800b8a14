/** The optional-value wrapper used across the model. */
module Wrappers {

  /** `None` stands for JavaScript's `undefined` where an operation may leave a result unset. */
  datatype Option<+T> = None | Some(value: T)
}
