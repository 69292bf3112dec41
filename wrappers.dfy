/** Option, for values that may be absent: a status message the table has no
    entry for, or a heart-rate notification without a usable reading. */
module Wrappers {

  datatype Option<+T> = None | Some(value: T)
}
