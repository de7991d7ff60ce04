/** The optional-value datatype used across the model: `None` stands for
    JavaScript's `null`/`undefined` or for "nothing drawn". */
module Wrappers {
  datatype Option<+T> = None | Some(value: T)
}
