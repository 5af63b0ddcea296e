/** Stock optional value, used wherever the program has a nil pointer, a zero time or a missing map key. */
module Wrappers {

  datatype Option<T> = None | Some(value: T)
}
