/** The optional value used for DOM look-ups that may find nothing and for
    JavaScript values that may be `null` or `undefined`. */
module Wrappers {

  datatype Option<+T> = None | Some(value: T)
}
