/** The optional value used by queue lookups, channel receives and bingo draws. */
module Wrappers {

  datatype Option<T> = None | Some(value: T)
}
