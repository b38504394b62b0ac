/** The optional value used wherever the component handles `null`/`undefined`. */
module Wrappers {

  datatype Option<+T> = None | Some(value: T)
}
