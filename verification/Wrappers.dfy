/** Values that may be absent, shared by every model in the project. */
module Wrappers {
  datatype Option<+T> = None | Some(value: T)
}
