/** The optional value the controller emits when a tick may or may not drive an output. */
module Wrappers {

  datatype Option<+T> = None | Some(value: T)
}
