/** The optional value shared by the id parser and the request bodies. */
module Wrappers {

  datatype Option<+T> = None | Some(value: T)
}
