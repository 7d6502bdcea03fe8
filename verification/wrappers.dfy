/** An optional value, standing in for a Go pointer that may be nil or a
    JavaScript number that may be NaN. */
module Wrappers {

  datatype Option<+T> = None | Some(value: T)

}
