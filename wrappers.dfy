/** The optional value used wherever the program yields `null` or an empty outcome. */
module Wrappers {

  datatype Option<+T> = None | Some(value: T)
}
