/** An optional value: a missing query parameter, a column that could not be parsed. */
module Wrappers {
  datatype Option<T> = None | Some(value: T)
}
