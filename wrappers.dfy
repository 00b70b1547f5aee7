/** The optional value shared by the table engine and the platform rules. */
module Wrappers {

  datatype Option<T> = None | Some(value: T)
}
