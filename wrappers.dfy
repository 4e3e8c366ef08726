/** The usual optional value: a missing result (Go's `nil`) or one value. */
module Wrappers {

  datatype Option<+T> = None | Some(value: T)
}
