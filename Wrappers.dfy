/** Option, for values that may be missing: an absent attribute, a NaN result. */
module Wrappers {

  datatype Option<+T> = None | Some(value: T)
}
