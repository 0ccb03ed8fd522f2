/** The optional value used wherever the program returns a value and an `ok`. */
module Wrappers {
  datatype Option<+T> = None | Some(value: T)
}
