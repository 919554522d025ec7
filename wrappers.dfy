/** The optional value used for "the document parsed / did not parse" and for partial readers. */
module Wrappers {
  datatype Option<+T> = None | Some(value: T)
}
