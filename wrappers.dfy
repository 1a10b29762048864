/** The optional value used wherever the JavaScript code returns `null`/`undefined`. */
module Wrappers {

  datatype Option<+T> = None | Some(value: T)
}
