/** The optional value used across the model: a stored item that may be absent,
    a search that may miss, a string that may not parse. */
module Wrappers {
  datatype Option<+T> = None | Some(value: T)
}
