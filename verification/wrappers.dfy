/** Option, the model's stand-in for Python's `None`-or-value. */
module Wrappers {

  datatype Option<+T> = None | Some(value: T)
}
