/** Option, used for values the page may leave unset (the length text). */
module Wrappers {
  datatype Option<+T> = None | Some(value: T)
}
