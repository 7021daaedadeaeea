/** The optional value used for an empty square and for "no piece selected". */
module Wrappers {

  datatype Option<+T> = None | Some(value: T)

}
