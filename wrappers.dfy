/** The optional-value datatype used for the parser's error slot. */
module Wrappers {
  datatype Option<+T> = None | Some(value: T)
}
