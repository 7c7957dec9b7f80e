/** Absence of a value: JavaScript's `undefined` / `null` for an optional argument or state. */
module Wrappers {
  datatype Option<+T> = None | Some(value: T)
}
