/** The optional value returned by the source's std::optional-valued members. */
module Wrappers {
  datatype Option<+T> = None | Some(value: T)
}
