/** The optional value used for absent rows, nullable JavaScript variables
    and the first match of a search. */
module Wrappers {

  datatype Option<+T> = None | Some(value: T)
}
