/** Optional values, used for the verdict of a placement. */
module Wrappers {

  /** An optional value: `None` when there is nothing to report. */
  datatype Option<+T> = None | Some(value: T)
}
