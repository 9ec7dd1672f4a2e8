/** An optional value: Python's `None` and the "no result" outcomes of the model. */
module Wrappers {
  datatype Option<T> = None | Some(value: T)
}
