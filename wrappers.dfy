/** A value that may be missing: pandas' NaN for a label or a statistic that has no value. */
module Wrappers {
  datatype Option<+T> = None | Some(value: T)
}
