/** The optional value used wherever the application holds `null` or a missing result. */
module Wrappers {

  datatype Option<+T> = None | Some(value: T)
}
