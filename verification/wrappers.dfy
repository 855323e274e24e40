/** The optional value used wherever the filter reads something that may be null. */
module Wrappers {

  datatype Option<+T> = None | Some(value: T)
}
