/** The optional value used for the documents' nullable fields. */
module Wrappers {

  datatype Option<+T> = None | Some(value: T)
}
