/** What several modules share: optional values, which stand for Go's nil pointers and missing
    errors, an error as its text, and a check as its address. */
module Wrappers {
  datatype Option<+T> = None | Some(value: T)

  type Error = string

  type CheckRef = nat
}
