/** The conventional Some/None datatype, used here for Go's nullable `error`. */
module Wrappers {

  datatype Option<+T> = None | Some(value: T)
}
