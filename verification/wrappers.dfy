/** Optional values: the model's stand-in for pandas NaN and for a library call that raised. */
module Wrappers {

  /** `None` is a missing value (NaN, an absent field, or a fetch that raised). */
  datatype Option<+T> = None | Some(value: T)
}
