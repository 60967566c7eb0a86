/** A value that may be absent: JavaScript's `undefined` result of `find`, or an unset field. */
module Wrappers {

  datatype Option<T> = None | Some(value: T)
}
