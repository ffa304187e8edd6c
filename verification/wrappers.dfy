/** The optional value used where JavaScript has `undefined` for "no value". */
module Wrappers {

  datatype Option<+T> = None | Some(value: T)
}
