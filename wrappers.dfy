/** The optional value used for missing buttons and stat lines that do not parse. */
module Wrappers {
  datatype Option<+T> = None | Some(value: T)
}
