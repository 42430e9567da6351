/** An optional value: the record's file names are NULL until a redirection sets them. */
module Wrappers {

  datatype Option<+T> = None | Some(value: T)
}
