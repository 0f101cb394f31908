/** The optional value used by the searches over the reference tables. */
module Wrappers {

  datatype Option<+T> = None | Some(value: T)
}
