/** The optional value the scripts express with `null` or `undefined`. */
module Wrappers {
  datatype Option<+T> = None | Some(value: T)
}
