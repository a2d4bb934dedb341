/** PHP's `null` for an optional value. */
module Wrappers {

  datatype Option<+T> = None | Some(value: T)
}
