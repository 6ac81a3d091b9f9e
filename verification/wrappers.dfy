/** The optional-value datatype used for the absent fields of a protocol envelope. */
module Wrappers {

  datatype Option<+T> = None | Some(value: T)
}
