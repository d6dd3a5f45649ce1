/** The optional-value datatype shared by the engine and the graph compiler. */
module Wrappers {

  /** A value that may be absent: a missing dictionary entry, an unset
      binding, or a compilation that produced nothing. */
  datatype Option<+T> = None | Some(value: T)
}
