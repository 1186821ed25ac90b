/** The optional-value datatype used for masked word positions. */
module Wrappers {

  /** Either a revealed value or the placeholder. */
  datatype Option<+T> = None | Some(value: T)
}
