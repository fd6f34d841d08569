/** The optional value used for the fields a JavaScript object may leave undefined. */
module Wrappers {
  datatype Option<+T> = None | Some(value: T)
}
