/** Optional values: a detector that does not fire, a date that did not parse. */
module Wrappers {
  datatype Option<+T> = None | Some(value: T)
}
