/** The optional value used for nullable handles (a ref whose `current` may be null). */
module Wrappers {

  datatype Option<+T> = None | Some(value: T)
}
