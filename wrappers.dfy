/** Option, for the places where the source yields `undefined` instead of a value. */
module Wrappers {

  datatype Option<+T> = None | Some(value: T)
}
