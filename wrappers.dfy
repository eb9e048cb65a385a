/** The optional value shared by the option record and the range lookup. */
module Wrappers {

  datatype Option<T> = None | Some(value: T)
}
