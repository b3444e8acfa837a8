/** The optional value every lookup of the toolkit returns. */
module Wrappers {

  datatype Option<+T> = None | Some(value: T)
}
