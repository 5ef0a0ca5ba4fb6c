/** A value that may be absent: the model's stand-in for `null` in the source. */
module Wrappers {

  datatype Option<+T> = None | Some(value: T)
}
