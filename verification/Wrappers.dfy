/** The option type that the components share. */
module Wrappers {

  datatype Option<T> = None | Some(value: T)
}
