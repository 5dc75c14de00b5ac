/** The usual optional value, used for "no flag raised" and "no page chosen". */
module Wrappers {
  datatype Option<+T> = None | Some(value: T)
}
