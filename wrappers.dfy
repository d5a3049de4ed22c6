/** The optional value of Python's `Optional[...]` and of a possibly missing property. */
module Wrappers {

  datatype Option<+T> = None | Some(value: T)
}
