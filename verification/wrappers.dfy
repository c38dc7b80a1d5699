/** The optional value used for angle limits, motors and per-step force
    writes. */
module Wrappers {

  datatype Option<+T> = None | Some(value: T)
}
