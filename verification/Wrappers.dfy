// The usual optional value, used where the program returns null or undefined.
module Wrappers {
  datatype Option<+T> = None | Some(value: T)
}
