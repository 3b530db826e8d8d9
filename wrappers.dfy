/** A nullable value: None plays the role of a NULL pointer. */
module Wrappers {

  datatype Option<+T> = None | Some(value: T)
}
