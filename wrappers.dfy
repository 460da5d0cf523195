/** The optional value used where the source either returns something or fails. */
module Wrappers {

  datatype Option<+T> = None | Some(value: T)

}
