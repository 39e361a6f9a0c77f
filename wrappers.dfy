/** An optional value, shared by the decoders and the handler table. */
module Wrappers {
  datatype Option<T> = None | Some(value: T)
}
