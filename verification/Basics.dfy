/** Definitions shared by every part of the model. */
module Basics {
  datatype Option<+T> = None | Some(value: T)
}
