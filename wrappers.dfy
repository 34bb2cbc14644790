/** The optional value that stands in for a nullable reference or an unparsable number. */
module Wrappers {
  datatype Option<+T> = None | Some(value: T)
}
