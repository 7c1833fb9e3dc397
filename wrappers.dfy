/** The optional value used where the engine keeps a possibly null object reference. */
module Wrappers {

  datatype Option<+T> = None | Some(value: T)
}
