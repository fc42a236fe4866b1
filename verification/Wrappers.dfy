/** The stock option type, for calls that can fail and for fields that may be unset. */
module Wrappers {
  datatype Option<+T> = None | Some(value: T)
}
