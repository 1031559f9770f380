/** The optional value used for lookups and partial parsers. */
module Wrappers {

  datatype Option<+T> = None | Some(value: T)
}
