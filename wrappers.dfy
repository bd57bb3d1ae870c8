/** The optional value Python expresses with `None`: a display hash is either a string or absent. */
module Wrappers {

  datatype Option<+T> = None | Some(value: T)
}
