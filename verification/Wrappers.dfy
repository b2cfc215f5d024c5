/** The option type used where the source returns None or raises. */
module Wrappers {
  datatype Option<+T> = None | Some(value: T)

  // Topics and streams are only compared.
  type Topic = string
}
