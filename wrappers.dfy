/** The optional value used wherever the extension reads something that may be
    absent (`undefined` in the browser). */
module Wrappers {
  datatype Option<+T> = None | Some(value: T)
}
