/** Go's "value or nil", used for `error` results (None is nil). */
module Wrappers {
  datatype Option<+T> = None | Some(value: T)
}
