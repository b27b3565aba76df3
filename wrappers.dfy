/** Optional values: the model's stand-in for a Python exception or a
    JavaScript `undefined` on the paths where the source fails. */
module Wrappers {
  datatype Option<+T> = None | Some(value: T)
}
