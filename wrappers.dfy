/** The NULL-or-value pointers of the C source, as an Option. */
module Wrappers {

  datatype Option<+T> = None | Some(value: T)
}
