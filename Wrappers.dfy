/** The optional value used for absent HTML attributes, absent message
    text and failed requests. */
module Wrappers {
  datatype Option<T> = None | Some(value: T)
}
