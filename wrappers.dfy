/** The Option type used for Python's "value or raised error" results. */
module Wrappers {
  datatype Option<+T> = None | Some(value: T)
}
