/** What the source says with a nil pointer, a second boolean result or an error. */
module Wrappers {

  datatype Option<T> = None | Some(value: T)
}
