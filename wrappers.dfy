/** An optional value, used for the nullable error message and the nullable session handle. */
module Wrappers {

  datatype Option<+T> = None | Some(value: T)
}
