/** The optional value that a dictionary lookup returns: `None` for a missing key. */
module Wrappers {
  datatype Option<+T> = None | Some(value: T)
}
