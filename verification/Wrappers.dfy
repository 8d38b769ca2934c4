/** A result that may be missing: an error return, a failing assert or an absent value of the source. */
module Wrappers {

  datatype Option<+T> = None | Some(value: T)
}
