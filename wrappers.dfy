/** An optional value, for a parse that may fail. */
module Wrappers {

  datatype Option<T> = None | Some(value: T)
}
