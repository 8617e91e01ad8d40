/** The optional value used where the source returns `Optional` or may see `null`. */
module Wrappers {

  datatype Option<+T> = None | Some(value: T)
}
