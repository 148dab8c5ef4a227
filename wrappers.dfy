/** The optional value used for "kept or dropped" and "first index, if any". */
module Wrappers {

  datatype Option<+T> = None | Some(value: T)
}
